/** What migrating a profile changes, what it keeps, and that once is enough. */
module MigrationTheorems {
  import opened Wrappers
  import opened OptionPaths
  import opened OptionMerge
  import opened ProfileMigration

  // ---------------------------------------------------- one tree of options

  predicate IsFixed(n: Node) {
    Fixed(n) == n
  }

  predicate IsMoved(n: Node) {
    !(n.Dict? && TABLE_CREATIONS in n.entries)
  }

  /** Nothing is left to correct in a corrected tree, and correcting touches nothing that moving looks at. */
  lemma FixedOnce(n: Node)
    ensures IsFixed(Fixed(n)) && (Movable(Fixed(n)) <==> Movable(n)) && (IsMoved(Fixed(n)) <==> IsMoved(n))
  {
    if n.Dict? && SOCIAL in n.entries {
      SocialFixedOnce(n.entries[SOCIAL]);
      var e := n.entries[SOCIAL := FixedSocial(n.entries[SOCIAL])];
      assert e[SOCIAL := FixedSocial(e[SOCIAL])] == e;
    }
  }

  lemma SocialFixedOnce(s: Node)
    ensures FixedSocial(FixedSocial(s)) == FixedSocial(s)
  {
    if s.Dict? {
      var e1 := Mapped(s.entries, SUBSCRIPTIONS, FixedSubscriptions);
      var e2 := Mapped(e1, CHAT_LANGUAGE, FixedChat);
      assert Mapped(e2, SUBSCRIPTIONS, FixedSubscriptions) == e2;
      assert Mapped(e2, CHAT_LANGUAGE, FixedChat) == e2;
    }
  }

  lemma MovedOnce(n: Node)
    requires Movable(n) && IsFixed(n)
    ensures IsFixed(Moved(n)) && IsMoved(Moved(n))
  {
    if !IsMoved(n) {
      var e := Moved(n).entries;
      if SOCIAL in e {
        assert n.entries[SOCIAL := FixedSocial(n.entries[SOCIAL])][SOCIAL] == n.entries[SOCIAL];
        assert e[SOCIAL := e[SOCIAL]] == e;
      }
    }
  }

  // ------------------------------------------------------------ idempotence

  /** A profile in which every migration finds nothing to do. */
  ghost predicate Settled(p: Entries) {
    && SERVER_OPTIONS in p && p[SERVER_OPTIONS].Dict?
    && (DEFAULTS in p ==> IsFixed(p[DEFAULTS]) && IsMoved(p[DEFAULTS]))
    && (forall sid :: sid in p[SERVER_OPTIONS].entries ==>
          IsFixed(p[SERVER_OPTIONS].entries[sid]) && IsMoved(p[SERVER_OPTIONS].entries[sid]))
  }

  lemma SettledStays(p: Entries, m: Migration)
    requires Settled(p)
    ensures Apply(m, p) == Some(Report(p, false))
  {
    var servers := p[SERVER_OPTIONS].entries;
    match m
    case LanguageOfServers =>
      assert Each(servers, Fixed) == servers;
      assert p[SERVER_OPTIONS := Dict(servers)] == p;
    case TablesOfServers =>
      assert forall sid :: sid in servers ==> Movable(servers[sid]);
      assert Each(servers, Moved) == servers;
      assert p[SERVER_OPTIONS := Dict(servers)] == p;
    case LanguageOfDefaults =>
      assert DEFAULTS in p ==> p[DEFAULTS := p[DEFAULTS]] == p;
    case TablesOfDefaults =>
      assert DEFAULTS in p ==> p[DEFAULTS := p[DEFAULTS]] == p;
    case _ =>
  }

  lemma {:induction false} SettledStaysThroughAll(p: Entries, ms: seq<Migration>)
    requires Settled(p)
    ensures ApplyAll(ms, p) == Some(Report(p, false))
    decreases |ms|
  {
    if ms == [] {
    } else {
      SettledStays(p, ms[0]);
      SettledStaysThroughAll(p, ms[1..]);
    }
  }

  /** The profile with its options keyed by server, before anything in them is changed. */
  function Keyed(p: Entries): Entries {
    if SERVER_OPTIONS in p then p
    else if SERVERS in p && p[SERVERS].Dict? then p[SERVER_OPTIONS := Dict(CarriedOver(p[SERVERS].entries))] - {SERVERS}
    else p[SERVER_OPTIONS := EMPTY]
  }

  /** When a migration goes through. */
  ghost predicate Sound(p: Entries) {
    && (SERVERS in p && SERVER_OPTIONS !in p ==>
          p[SERVERS].Dict? && forall sid :: sid in p[SERVERS].entries ==> !Raises(p[SERVERS].entries[sid]))
    && Keyed(p)[SERVER_OPTIONS].Dict?
    && (DEFAULTS in p ==> Movable(p[DEFAULTS]))
    && (forall sid :: sid in Keyed(p)[SERVER_OPTIONS].entries ==> Movable(Keyed(p)[SERVER_OPTIONS].entries[sid]))
  }

  /** What the whole migration makes of a profile: server options keyed, and every tree of options migrated. */
  function Result(p: Entries): Entries
    requires Keyed(p)[SERVER_OPTIONS].Dict? && (DEFAULTS in p ==> Movable(p[DEFAULTS]))
    requires forall sid :: sid in Keyed(p)[SERVER_OPTIONS].entries ==> Movable(Keyed(p)[SERVER_OPTIONS].entries[sid])
  {
    FixedKeepsMovable();
    var k := Keyed(p);
    var migrated := map sid | sid in k[SERVER_OPTIONS].entries :: Migrated(k[SERVER_OPTIONS].entries[sid]);
    var k' := k[SERVER_OPTIONS := Dict(migrated)];
    if DEFAULTS in p then k'[DEFAULTS := Migrated(p[DEFAULTS])] else k'
  }

  lemma FixedKeepsMovable()
    ensures forall n: Node :: Movable(n) ==> Movable(Fixed(n))
  {
    forall n: Node ensures Movable(n) ==> Movable(Fixed(n)) {
      FixedOnce(n);
    }
  }

  lemma Unfold(m: Migration, rest: seq<Migration>, p: Entries)
    ensures ApplyAll([m] + rest, p) == match Apply(m, p)
                                       case None => None
                                       case Some(r) =>
                                         (match ApplyAll(rest, r.profile)
                                          case None => None
                                          case Some(s) => Some(Report(s.profile, r.changed || s.changed)))
  {
    assert ([m] + rest)[1..] == rest;
  }

  /** The first two migrations key the options by server. */
  lemma KeyingIs(p: Entries, rest: seq<Migration>)
    ensures var sound := SERVERS in p && SERVER_OPTIONS !in p ==>
              p[SERVERS].Dict? && forall sid :: sid in p[SERVERS].entries ==> !Raises(p[SERVERS].entries[sid]);
            var all := ApplyAll([Servers, Ensure] + rest, p);
            && (all.Some? <==> sound && ApplyAll(rest, Keyed(p)).Some?)
            && (all.Some? ==> all.value.profile == ApplyAll(rest, Keyed(p)).value.profile)
  {
    hide ApplyAll;
    assert [Servers, Ensure] + rest == [Servers] + ([Ensure] + rest);
    Unfold(Servers, [Ensure] + rest, p);
    if MigrateServers(p).Some? {
      Unfold(Ensure, rest, MigrateServers(p).value.profile);
    }
  }

  /** The two language migrations correct every tree. */
  lemma FixingIs(k: Entries, rest: seq<Migration>)
    requires SERVER_OPTIONS in k
    ensures var all := ApplyAll([LanguageOfDefaults, LanguageOfServers] + rest, k);
            if k[SERVER_OPTIONS].Dict?
            then && (all.Some? <==> ApplyAll(rest, AllFixed(k)).Some?)
                 && (all.Some? ==> all.value.profile == ApplyAll(rest, AllFixed(k)).value.profile)
            else all == None
  {
    hide ApplyAll, Fixed;
    assert [LanguageOfDefaults, LanguageOfServers] + rest == [LanguageOfDefaults] + ([LanguageOfServers] + rest);
    Unfold(LanguageOfDefaults, [LanguageOfServers] + rest, k);
    var k1 := Mapped(k, DEFAULTS, Fixed);
    Unfold(LanguageOfServers, rest, k1);
    assert k1[SERVER_OPTIONS] == k[SERVER_OPTIONS];
  }

  function AllFixed(k: Entries): Entries
    requires SERVER_OPTIONS in k && k[SERVER_OPTIONS].Dict?
  {
    Mapped(k, DEFAULTS, Fixed)[SERVER_OPTIONS := Dict(Each(k[SERVER_OPTIONS].entries, Fixed))]
  }

  /** The two table migrations move the notifications of every tree, or raise an error. */
  lemma MovingIs(k: Entries)
    requires SERVER_OPTIONS in k && k[SERVER_OPTIONS].Dict?
    ensures var all := ApplyAll([TablesOfDefaults, TablesOfServers], k);
            && (all.Some? <==> AllMovable(k))
            && (all.Some? ==> all.value.profile == AllMoved(k))
  {
    hide ApplyAll, Movable, Moved;
    assert [TablesOfDefaults, TablesOfServers] == [TablesOfDefaults] + ([TablesOfServers] + []);
    Unfold(TablesOfDefaults, [TablesOfServers] + [], k);
    if MoveDefaults(k).Some? {
      var k1 := MoveDefaults(k).value.profile;
      assert k1[SERVER_OPTIONS] == k[SERVER_OPTIONS];
      Unfold(TablesOfServers, [], k1);
      NothingToApply(k1);
      if MoveServers(k1).Some? {
        NothingToApply(MoveServers(k1).value.profile);
      }
    }
  }

  lemma NothingToApply(p: Entries)
    ensures ApplyAll([], p) == Some(Report(p, false))
  {
  }

  ghost predicate AllMovable(k: Entries)
    requires SERVER_OPTIONS in k && k[SERVER_OPTIONS].Dict?
  {
    && (DEFAULTS in k ==> Movable(k[DEFAULTS]))
    && (forall sid :: sid in k[SERVER_OPTIONS].entries ==> Movable(k[SERVER_OPTIONS].entries[sid]))
  }

  ghost function AllMoved(k: Entries): Entries
    requires SERVER_OPTIONS in k && k[SERVER_OPTIONS].Dict? && AllMovable(k)
  {
    var k1 := if DEFAULTS in k then k[DEFAULTS := Moved(k[DEFAULTS])] else k;
    k1[SERVER_OPTIONS := Dict(Each(k[SERVER_OPTIONS].entries, Moved))]
  }

  lemma AllFixedTrees(k: Entries)
    requires SERVER_OPTIONS in k && k[SERVER_OPTIONS].Dict?
    ensures var f := AllFixed(k);
            && f.Keys == k.Keys && f[SERVER_OPTIONS].Dict?
            && (DEFAULTS in k ==> f[DEFAULTS] == Fixed(k[DEFAULTS]))
            && f[SERVER_OPTIONS].entries.Keys == k[SERVER_OPTIONS].entries.Keys
            && (forall sid :: sid in k[SERVER_OPTIONS].entries ==>
                  f[SERVER_OPTIONS].entries[sid] == Fixed(k[SERVER_OPTIONS].entries[sid]))
            && (forall x :: x in k && x != DEFAULTS && x != SERVER_OPTIONS ==> f[x] == k[x])
  {
    hide Fixed;
  }

  lemma FixingKeepsMovable(k: Entries)
    requires SERVER_OPTIONS in k && k[SERVER_OPTIONS].Dict?
    ensures AllFixed(k)[SERVER_OPTIONS].Dict? && SERVER_OPTIONS in AllFixed(k)
    ensures AllMovable(AllFixed(k)) <==> AllMovable(k)
  {
    hide Movable, Moved, Fixed, AllFixed;
    AllFixedTrees(k);
    if DEFAULTS in k {
      FixedOnce(k[DEFAULTS]);
    }
    forall sid | sid in k[SERVER_OPTIONS].entries
      ensures Movable(AllFixed(k)[SERVER_OPTIONS].entries[sid]) <==> Movable(k[SERVER_OPTIONS].entries[sid])
    {
      FixedOnce(k[SERVER_OPTIONS].entries[sid]);
    }
  }

  /** Correcting and then moving, everywhere, is what Result says. */
  lemma FixedThenMoved(p: Entries)
    requires Keyed(p)[SERVER_OPTIONS].Dict? && AllMovable(Keyed(p))
    ensures SERVER_OPTIONS in AllFixed(Keyed(p)) && AllFixed(Keyed(p))[SERVER_OPTIONS].Dict?
            && AllMovable(AllFixed(Keyed(p)))
    ensures AllMoved(AllFixed(Keyed(p))) == Result(p)
  {
    hide Movable, Moved, Fixed, AllFixed;
    var k := Keyed(p);
    AllFixedTrees(k);
    FixingKeepsMovable(k);
    var servers := k[SERVER_OPTIONS].entries;
    var a, b := AllMoved(AllFixed(k)), Result(p);
    assert a[SERVER_OPTIONS].entries == b[SERVER_OPTIONS].entries;
    assert a == b;
  }

  /** The migration raises an error exactly for an unsound profile, and otherwise does just what Result says. */
  lemma MigrateIs(p: Entries)
    ensures Migrate(p).Some? <==> Sound(p)
    ensures Sound(p) ==> Migrate(p).value.profile == Result(p)
  {
    hide ApplyAll, Movable, Moved, Fixed, Result, AllMoved, AllFixed;
    var tables := [TablesOfDefaults, TablesOfServers];
    var languages := [LanguageOfDefaults, LanguageOfServers] + tables;
    assert ALL == [Servers, Ensure] + languages;
    KeyingIs(p, languages);
    FixingIs(Keyed(p), tables);
    if Keyed(p)[SERVER_OPTIONS].Dict? {
      AllFixedKeyed(Keyed(p));
      FixingKeepsMovable(Keyed(p));
      MovingIs(AllFixed(Keyed(p)));
      if AllMovable(Keyed(p)) {
        FixedThenMoved(p);
      }
    }
  }

  lemma AllFixedKeyed(k: Entries)
    requires SERVER_OPTIONS in k && k[SERVER_OPTIONS].Dict?
    ensures SERVER_OPTIONS in AllFixed(k) && AllFixed(k)[SERVER_OPTIONS].Dict?
  {
  }

  lemma ResultIsSettled(p: Entries)
    requires Sound(p)
    ensures Settled(Result(p))
  {
    hide Fixed, Moved, Movable;
    var k := Keyed(p);
    var trees := k[SERVER_OPTIONS].entries;
    if DEFAULTS in p {
      MigratedIsSettled(p[DEFAULTS]);
    }
    forall sid | sid in trees ensures IsFixed(Migrated(trees[sid])) && IsMoved(Migrated(trees[sid])) {
      MigratedIsSettled(trees[sid]);
    }
  }

  lemma MigratedIsSettled(n: Node)
    requires Movable(n)
    ensures Movable(Fixed(n)) && IsFixed(Migrated(n)) && IsMoved(Migrated(n))
  {
    FixedOnce(n);
    MovedOnce(Fixed(n));
  }

  /** After one pass each of the six migrations reports no change on the result, and so does another pass. */
  lemma MigrateIsIdempotent(p: Entries, m: Migration)
    requires Migrate(p).Some?
    ensures var p' := Migrate(p).value.profile;
            Apply(m, p') == Some(Report(p', false)) && Migrate(p') == Some(Report(p', false))
  {
    MigrateIs(p);
    ResultIsSettled(p);
    SettledStays(Result(p), m);
    SettledStaysThroughAll(Result(p), ALL);
  }

  // ----------------------------------------------------------- preservation

  const CHECK: Layers := [SOCIAL, SUBSCRIPTIONS, "Check"]
  const CZECH: Layers := [SOCIAL, SUBSCRIPTIONS, "Czech"]
  const CHAT: Layers := [SOCIAL, CHAT_LANGUAGE]
  const CREATIONS: Layers := [TABLE_CREATIONS]
  const NOTIFIED: Layers := [LOCAL_TABLE, NOTIFICATIONS]

  /** Paths that neither lead to a setting the migration renames or fills in, nor on from one. */
  predicate Untouched(q: Layers) {
    && Apart(CHECK, q) && Apart(CZECH, q) && Apart(CHAT, q) && Apart(CREATIONS, q) && Apart(NOTIFIED, q)
    && forall k :: k in FILL ==> Apart([LOCAL_TABLE, k], q)
  }

  /** Every setting that is not renamed or filled in is what it was. */
  lemma OtherSettingsKept(n: Node, q: Layers)
    requires Movable(n) && Untouched(q)
    ensures Movable(Fixed(n)) && See(Migrated(n), q) == See(n, q)
  {
    FixedOnce(n);
    FixedKeeps(n, q);
    MovedKeeps(Fixed(n), q);
  }

  lemma FixedKeeps(n: Node, q: Layers)
    requires Apart(CHECK, q) && Apart(CZECH, q) && Apart(CHAT, q)
    ensures See(Fixed(n), q) == See(n, q)
  {
    if n.Dict? && SOCIAL in n.entries && q[0] == SOCIAL {
      assert q == [SOCIAL] + q[1..];
      assert q[1..] != [];
      var social, r := n.entries[SOCIAL], q[1..];
      assert q == [SOCIAL, r[0]] + r[1..];
      assert r[0] == CHAT_LANGUAGE ==> CHAT <= q;
      if social.Dict? && r[0] == SUBSCRIPTIONS && SUBSCRIPTIONS in social.entries {
        assert r[1..] != [];
        assert q == [SOCIAL, SUBSCRIPTIONS, r[1]] + r[2..];
        assert r[1] == "Check" ==> CHECK <= q;
        assert r[1] == "Czech" ==> CZECH <= q;
        assert FixedSocial(social).entries[SUBSCRIPTIONS] == FixedSubscriptions(social.entries[SUBSCRIPTIONS]);
        assert See(FixedSubscriptions(social.entries[SUBSCRIPTIONS]), r[1..])
            == See(social.entries[SUBSCRIPTIONS], r[1..]);
      }
      assert See(FixedSocial(social), r) == See(social, r);
    }
  }

  lemma MovedKeeps(n: Node, q: Layers)
    requires Movable(n) && Apart(CREATIONS, q) && Apart(NOTIFIED, q)
    requires forall k :: k in FILL ==> Apart([LOCAL_TABLE, k], q)
    ensures See(Moved(n), q) == See(n, q)
  {
    if !IsMoved(n) {
      assert q == [q[0]] + q[1..];
      assert q[0] == TABLE_CREATIONS ==> CREATIONS <= q;
      if q[0] == LOCAL_TABLE {
        var r := q[1..];
        assert r != [];
        var name := r[0];
        var prefix := [LOCAL_TABLE, name];
        assert q == prefix + r[1..];
        assert name == NOTIFICATIONS ==> NOTIFIED <= q;
        assert name in FILL ==> prefix <= q;
        var table := if LOCAL_TABLE in n.entries then n.entries[LOCAL_TABLE] else EMPTY;
        assert See(Dict(LocalTable(table.entries, n.entries[TABLE_CREATIONS])), r) == See(table, r);
      }
    }
  }

  /** The two renamed languages: subscriptions move to the new name whole, and the chat language with them. */
  lemma LanguageRenamed(n: Node, beyond: Layers)
    requires Movable(n)
    ensures Movable(Fixed(n))
    ensures !See(Migrated(n), CHECK).Here?
    ensures See(Migrated(n), CZECH + beyond) == See(n, (if See(n, CHECK).Here? then CHECK else CZECH) + beyond)
    ensures See(Migrated(n), CHAT + beyond)
            == if See(n, CHAT) == Here(Str("Check")) then See(Str("Czech"), beyond) else See(n, CHAT + beyond)
  {
    FixedOnce(n);
    MovedKeepsSocial(Fixed(n));
    RenamedInSocial(n, beyond);
    assert (CZECH + beyond)[0] == SOCIAL && (CHAT + beyond)[0] == SOCIAL;
  }

  lemma MovedKeepsSocial(n: Node)
    requires Movable(n)
    ensures forall q: Layers :: q != [] && q[0] == SOCIAL ==> See(Moved(n), q) == See(n, q)
  {
  }

  lemma RenamedInSocial(n: Node, beyond: Layers)
    ensures !See(Fixed(n), CHECK).Here?
    ensures See(Fixed(n), CZECH + beyond) == See(n, (if See(n, CHECK).Here? then CHECK else CZECH) + beyond)
    ensures See(Fixed(n), CHAT + beyond)
            == if See(n, CHAT) == Here(Str("Check")) then See(Str("Czech"), beyond) else See(n, CHAT + beyond)
  {
    See3(n, SOCIAL, SUBSCRIPTIONS, "Czech", beyond);
    See3(n, SOCIAL, SUBSCRIPTIONS, "Check", beyond);
    See3(n, SOCIAL, SUBSCRIPTIONS, "Check", []);
    See3(Fixed(n), SOCIAL, SUBSCRIPTIONS, "Czech", beyond);
    See3(Fixed(n), SOCIAL, SUBSCRIPTIONS, "Check", []);
    See2(n, SOCIAL, CHAT_LANGUAGE, beyond);
    See2(n, SOCIAL, CHAT_LANGUAGE, []);
    See2(Fixed(n), SOCIAL, CHAT_LANGUAGE, beyond);
    assert CHECK + [] == CHECK && CHAT + [] == CHAT;
    if n.Dict? && SOCIAL in n.entries && n.entries[SOCIAL].Dict? {
      FixedParts(n.entries[SOCIAL].entries);
    }
    hide See, FixedSocial, FixedSubscriptions;
  }

  lemma FixedParts(e: Entries)
    ensures var f := FixedSocial(Dict(e)).entries;
            && f.Keys == e.Keys
            && (SUBSCRIPTIONS in e ==> f[SUBSCRIPTIONS] == FixedSubscriptions(e[SUBSCRIPTIONS]))
            && (CHAT_LANGUAGE in e ==> f[CHAT_LANGUAGE] == FixedChat(e[CHAT_LANGUAGE]))
  {
  }

  lemma See2(n: Node, a: string, b: string, beyond: Layers)
    ensures See(n, [a, b] + beyond)
            == if !n.Dict? then Barred else if a !in n.entries then Missing
               else if !n.entries[a].Dict? then Barred else if b !in n.entries[a].entries then Missing
               else See(n.entries[a].entries[b], beyond)
  {
    assert ([a, b] + beyond)[1..] == [b] + beyond && ([b] + beyond)[1..] == beyond;
  }

  lemma See3(n: Node, a: string, b: string, c: string, beyond: Layers)
    ensures See(n, [a, b, c] + beyond)
            == if !n.Dict? then Barred else if a !in n.entries then Missing
               else See(n.entries[a], [b, c] + beyond)
    ensures n.Dict? && a in n.entries && n.entries[a].Dict? && b in n.entries[a].entries ==>
            var m := n.entries[a].entries[b];
            See(n.entries[a], [b, c] + beyond)
            == if !m.Dict? then Barred else if c !in m.entries then Missing else See(m.entries[c], beyond)
    ensures n.Dict? && a in n.entries && !(n.entries[a].Dict? && b in n.entries[a].entries) ==>
            See(n.entries[a], [b, c] + beyond) == if n.entries[a].Dict? then Missing else Barred
  {
    assert ([a, b, c] + beyond)[1..] == [b, c] + beyond;
    if n.Dict? && a in n.entries {
      See2(n.entries[a], b, c, beyond);
    }
  }

  /** Table notifications move to the local table's options, and its other options are filled in only where
      they are missing.  Without table notifications the local table is left alone. */
  lemma TablesMoved(n: Node, beyond: Layers, k: string)
    requires Movable(n) && k in FILL
    ensures Movable(Fixed(n))
    ensures !See(Migrated(n), CREATIONS).Here?
    ensures See(Migrated(n), NOTIFIED + beyond)
            == See(n, (if See(n, CREATIONS).Here? then CREATIONS else NOTIFIED) + beyond)
    ensures See(Migrated(n), [LOCAL_TABLE, k])
            == if See(n, CREATIONS).Here? && !See(n, [LOCAL_TABLE, k]).Here? then Here(FILL[k])
               else See(n, [LOCAL_TABLE, k])
  {
    FixedOnce(n);
    FixedKeepsTables(n);
    TablesOfMoved(Fixed(n), beyond, k);
    assert CREATIONS + beyond == [TABLE_CREATIONS] + beyond;
    FixedKeepsSights(n, CREATIONS);
    FixedKeepsSights(n, CREATIONS + beyond);
    FixedKeepsSights(n, NOTIFIED + beyond);
    FixedKeepsSights(n, [LOCAL_TABLE, k]);
  }

  lemma FixedKeepsTables(n: Node)
    ensures Fixed(n).Dict? <==> n.Dict?
    ensures n.Dict? ==> Fixed(n).entries.Keys == n.entries.Keys
    ensures n.Dict? ==> forall x :: x in n.entries && x != SOCIAL ==> Fixed(n).entries[x] == n.entries[x]
  {
  }

  lemma FixedKeepsSights(n: Node, q: Layers)
    requires q != [] && q[0] != SOCIAL
    ensures See(Fixed(n), q) == See(n, q)
  {
  }

  lemma TablesOfMoved(n: Node, beyond: Layers, k: string)
    requires Movable(n) && k in FILL
    ensures !See(Moved(n), CREATIONS).Here?
    ensures See(Moved(n), NOTIFIED + beyond)
            == See(n, (if See(n, CREATIONS).Here? then CREATIONS else NOTIFIED) + beyond)
    ensures See(Moved(n), [LOCAL_TABLE, k])
            == if See(n, CREATIONS).Here? && !See(n, [LOCAL_TABLE, k]).Here? then Here(FILL[k])
               else See(n, [LOCAL_TABLE, k])
  {
    See2(Moved(n), LOCAL_TABLE, NOTIFICATIONS, beyond);
    See2(Moved(n), LOCAL_TABLE, k, []);
    See2(n, LOCAL_TABLE, k, []);
    assert [LOCAL_TABLE, k] + [] == [LOCAL_TABLE, k];
    assert (CREATIONS + beyond)[1..] == beyond && CREATIONS[1..] == [];
    if !IsMoved(n) {
      assert k != NOTIFICATIONS;
      assert See(n, CREATIONS).Here?;
    }
  }

  /** An earlier setting under the corrected name survives exactly if nothing was stored under the wrong one,
      or the same thing was. */
  lemma CzechSurvivesIff(n: Node)
    requires Movable(n) && See(n, CZECH).Here?
    ensures Movable(Fixed(n))
    ensures See(Migrated(n), CZECH) == See(n, CZECH) <==> !See(n, CHECK).Here? || See(n, CHECK) == See(n, CZECH)
  {
    LanguageRenamed(n, []);
    assert CZECH + [] == CZECH && CHECK + [] == CHECK;
  }

  /** Filling in a server's local table changes what its view shows exactly where the server had no setting of
      its own and the default differs from the value filled in: there the migration does not preserve settings. */
  lemma FillingShowsIff(defaults: Node, n: Node, k: string)
    requires defaults.Dict? && n.Dict? && Movable(n) && See(n, CREATIONS).Here? && k in FILL
    ensures Movable(Fixed(n)) && Migrated(n).Dict?
    ensures var path := [LOCAL_TABLE, k];
            var before, after := See(Merge(defaults, n, true), path), See(Merge(defaults, Migrated(n), true), path);
            after == before <==> See(n, path).Here? || See(defaults, path) == Here(FILL[k])
  {
    var path := [LOCAL_TABLE, k];
    TablesMoved(n, [], k);
    MigratedIsDict(n);
    MergeIsPointwise(defaults, n, path);
    MergeIsPointwise(defaults, Migrated(n), path);
    assert See(n, path) != Barred && FILL[k].Str? by {
      assert path[1..] == [k];
    }
  }

  /** What lies at a key, and beyond it. */
  lemma SeeLayer(e: Entries, key: string, rest: Layers)
    ensures See(Dict(e), [key] + rest) == if key in e then See(e[key], rest) else Missing
  {
    assert ([key] + rest)[1..] == rest;
  }

  /** A setting under the right name that the wrong one overwrites. */
  lemma CzechIsOverwritten()
    ensures var subs := Dict(map["Check" := Bool(true), "Czech" := Bool(false)]);
            var n := Dict(map[SOCIAL := Dict(map[SUBSCRIPTIONS := subs])]);
            && Movable(n) && See(n, CZECH) == Here(Bool(false))
            && Movable(Fixed(n)) && See(Migrated(n), CZECH) == Here(Bool(true))
  {
    hide Migrated, Fixed, See;
    var subs := map["Check" := Bool(true), "Czech" := Bool(false)];
    var n := Dict(map[SOCIAL := Dict(map[SUBSCRIPTIONS := Dict(subs)])]);
    SeeSubscription(subs, "Check");
    SeeSubscription(subs, "Czech");
    LanguageRenamed(n, []);
    assert CZECH + [] == CZECH && CHECK + [] == CHECK;
  }

  lemma SeeSubscription(subs: Entries, language: string)
    requires language in subs
    ensures See(Dict(map[SOCIAL := Dict(map[SUBSCRIPTIONS := Dict(subs)])]), [SOCIAL, SUBSCRIPTIONS, language])
         == Here(subs[language])
  {
    assert [SOCIAL, SUBSCRIPTIONS, language] == [SOCIAL] + ([SUBSCRIPTIONS] + ([language] + []));
    SeeLayer(map[SOCIAL := Dict(map[SUBSCRIPTIONS := Dict(subs)])], SOCIAL, [SUBSCRIPTIONS] + ([language] + []));
    SeeLayer(map[SUBSCRIPTIONS := Dict(subs)], SUBSCRIPTIONS, [language] + []);
    SeeLayer(subs, language, []);
  }

  /** A server's own table notification is moved, and the default for visibility no longer shows. */
  lemma FillingHidesDefault()
    ensures var k := "start_as_visible";
            var defaults := Dict(map[LOCAL_TABLE := Dict(map[k := Str("never")])]);
            var n := Dict(map[TABLE_CREATIONS := Bool(true)]);
            var path := [LOCAL_TABLE, k];
            && Movable(n) && Movable(Fixed(n))
            && See(Merge(defaults, n, true), path) == Here(Str("never"))
            && See(Merge(defaults, Migrated(n), true), path) == Here(Str("always"))
  {
    hide Migrated, Fixed, See, Merge;
    var k := "start_as_visible";
    var defaults := Dict(map[LOCAL_TABLE := Dict(map[k := Str("never")])]);
    var n := Dict(map[TABLE_CREATIONS := Bool(true)]);
    var path := [LOCAL_TABLE, k];
    assert path == [LOCAL_TABLE] + ([k] + []) && CREATIONS == [TABLE_CREATIONS] + [];
    SeeLayer(defaults.entries, LOCAL_TABLE, [k] + []);
    SeeLayer(map[k := Str("never")], k, []);
    SeeLayer(n.entries, TABLE_CREATIONS, []);
    SeeLayer(n.entries, LOCAL_TABLE, [k] + []);
    SeeNode(Str("never"));
    SeeNode(Bool(true));
    MigratedIsDict(n);
    TablesMoved(n, [], k);
    MergeIsPointwise(defaults, n, path);
    MergeIsPointwise(defaults, Migrated(n), path);
  }

  lemma SeeNode(n: Node)
    ensures See(n, []) == Here(n)
  {
  }

  lemma MigratedIsDict(n: Node)
    requires n.Dict? && Movable(n)
    ensures Movable(Fixed(n)) && Migrated(n).Dict?
  {
    FixedOnce(n);
  }

  predicate MigratedFrom(n: Node, n': Node) {
    Movable(n) && Movable(Fixed(n)) && n' == Migrated(n)
  }

  /** The migration of a whole profile: every tree of options is migrated on its own, the overrides of the
      old server list are carried over, and everything else stays. */
  lemma ProfileKept(p: Entries, key: string, sid: string)
    requires Migrate(p).Some?
    ensures var p' := Migrate(p).value.profile;
            && SERVER_OPTIONS in p' && p'[SERVER_OPTIONS].Dict?
            && (key != DEFAULTS && key != SERVER_OPTIONS && (key != SERVERS || SERVER_OPTIONS in p) ==>
                  (key in p' <==> key in p) && (key in p ==> p'[key] == p[key]))
            && (DEFAULTS in p' <==> DEFAULTS in p)
            && (DEFAULTS in p ==> MigratedFrom(p[DEFAULTS], p'[DEFAULTS]))
            && var trees' := p'[SERVER_OPTIONS].entries;
               if SERVER_OPTIONS in p then
                 && p[SERVER_OPTIONS].Dict?
                 && (sid in trees' <==> sid in p[SERVER_OPTIONS].entries)
                 && (sid in trees' ==> MigratedFrom(p[SERVER_OPTIONS].entries[sid], trees'[sid]))
               else if SERVERS in p then
                 && SERVERS !in p' && p[SERVERS].Dict?
                 && (sid in trees' <==> sid in p[SERVERS].entries && Carries(p[SERVERS].entries[sid]))
                 && (sid in trees' ==> MigratedFrom(p[SERVERS].entries[sid].entries[OVERRIDES], trees'[sid]))
               else trees' == map[]
  {
    hide Fixed, Moved, Movable, ApplyAll, Migrate;
    MigrateIs(p);
    FixedKeepsMovable();
  }

  // ---------------------------------------------------------- the reports

  /** Each migration reports a change exactly when it makes one. */
  lemma ReportsExactly(m: Migration, p: Entries)
    requires Apply(m, p).Some?
    ensures Apply(m, p).value.changed <==> Apply(m, p).value.profile != p
  {
  }

  lemma {:induction false} UnreportedIsUnchanged(ms: seq<Migration>, p: Entries)
    requires ApplyAll(ms, p).Some? && !ApplyAll(ms, p).value.changed
    ensures ApplyAll(ms, p).value.profile == p
    decreases |ms|
  {
    hide Apply;
    if ms == [] {
    } else {
      ReportsExactly(ms[0], p);
      UnreportedIsUnchanged(ms[1..], Apply(ms[0], p).value.profile);
    }
  }

  /** The whole migration asks for the profile to be saved if and only if it changed it. */
  lemma MigrateReportsExactly(p: Entries)
    requires Migrate(p).Some?
    ensures Migrate(p).value.changed <==> Migrate(p).value.profile != p
  {
    if Migrate(p).value.changed {
      MigrateIs(p);
      ResultIsSettled(p);
      if Result(p) == p {
        SettledStaysThroughAll(p, ALL);
      }
    } else {
      UnreportedIsUnchanged(ALL, p);
    }
    hide *;
  }

  // ------------------------------------------------------ the old server list

  /** What counts as nothing. */
  const NOTHING: set<Node> := {EMPTY, List([]), Str(""), Num(0), Bool(false), Null}

  /** An old server's entry carries overrides over exactly if it is a dictionary that has some, and they are not
      nothing. */
  lemma CarriesIff(info: Node)
    ensures Carries(info) <==> info.Dict? && OVERRIDES in info.entries && info.entries[OVERRIDES] !in NOTHING
  {
  }

  /** An old server's entry raises exactly if it is a number, a truth value or null, or a text or list in which
      the name of the overrides is found. */
  lemma RaisesIff(info: Node)
    ensures Raises(info) <==>
              || info.Num? || info.Bool? || info.Null?
              || (info.Str? && exists i :: 0 <= i <= |info.text| && "options_overrides" <= info.text[i..])
              || (info.List? && Str("options_overrides") in info.items)
  {
  }
}
