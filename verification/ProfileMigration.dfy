/**
 Migrating option profiles written by earlier clients (clients/desktop/config_manager.py, _migrate_profiles and
 its helpers).  Numbers in profiles are taken to be integers.
 */
module ProfileMigration {
  import opened Wrappers
  import opened OptionPaths

  // ------------------------------------------------- one tree of options

  const SOCIAL := "social"
  const SUBSCRIPTIONS := "language_subscriptions"
  const CHAT_LANGUAGE := "chat_input_language"
  const TABLE_CREATIONS := "table_creations"
  const LOCAL_TABLE := "local_table"
  const NOTIFICATIONS := "creation_notifications"
  const DEFAULTS := "client_options_defaults"
  const SERVER_OPTIONS := "server_options"
  const SERVERS := "servers"
  const OVERRIDES := "options_overrides"

  function FixedSubscriptions(subs: Node): Node {
    if subs.Dict? && "Check" in subs.entries
    then Dict((subs.entries - {"Check"})["Czech" := subs.entries["Check"]]) else subs
  }

  function FixedChat(chat: Node): Node {
    if chat == Str("Check") then Str("Czech") else chat
  }

  /** A value under a key changed in place, if the key is there. */
  function Mapped(e: Entries, key: string, f: Node -> Node): Entries {
    if key in e then e[key := f(e[key])] else e
  }

  function FixedSocial(social: Node): Node {
    if social.Dict?
    then Dict(Mapped(Mapped(social.entries, SUBSCRIPTIONS, FixedSubscriptions), CHAT_LANGUAGE, FixedChat))
    else social
  }

  /** The language misnamed in early versions, corrected. */
  function Fixed(options: Node): Node {
    if options.Dict? then Dict(Mapped(options.entries, SOCIAL, FixedSocial)) else options
  }

  /** The settings a local table gets where it has none. */
  const FILL: map<string, Node> := map[
    "start_as_visible" := Str("always"), "start_with_password" := Str("never"), "default_password_text" := Str("")]

  function LocalTable(table: Entries, creations: Node): Entries {
    FILL + table + map[NOTIFICATIONS := creations]
  }

  /** May the table notifications of these options be moved without an error? */
  predicate Movable(options: Node) {
    options.Dict? && TABLE_CREATIONS in options.entries && LOCAL_TABLE in options.entries ==>
      options.entries[LOCAL_TABLE].Dict?
  }

  /** Table notifications, moved into the local table's options. */
  function Moved(options: Node): Node
    requires Movable(options)
  {
    if !options.Dict? || TABLE_CREATIONS !in options.entries then options
    else
      var rest := options.entries - {TABLE_CREATIONS};
      var table := if LOCAL_TABLE in rest then rest[LOCAL_TABLE].entries else map[];
      Dict(rest[LOCAL_TABLE := Dict(LocalTable(table, options.entries[TABLE_CREATIONS]))])
  }

  function Migrated(options: Node): Node
    requires Movable(options)
  {
    Moved(Fixed(options))
  }

  // ------------------------------------------------------ the whole profile

  /** A migration's result: the profile and whether it reports a change; nothing if it raises an error. */
  datatype Report = Report(profile: Entries, changed: bool)

  function Truthy(n: Node): bool {
    match n
    case Dict(entries) => entries != map[]
    case List(items) => items != []
    case Str(text) => text != ""
    case Num(value) => value != 0
    case Bool(truth) => truth
    case Null => false
  }

  /** Does looking for overrides in an old server entry raise an error? */
  predicate Raises(info: Node) {
    match info
    case Dict(_) => false
    case Str(text) => Contains(text, OVERRIDES)
    case List(items) => Str(OVERRIDES) in items
    case _ => true
  }

  predicate Carries(info: Node) {
    info.Dict? && OVERRIDES in info.entries && Truthy(info.entries[OVERRIDES])
  }

  function CarriedOver(servers: Entries): Entries {
    map sid | sid in servers && Carries(servers[sid]) :: servers[sid].entries[OVERRIDES]
  }

  function MigrateServers(p: Entries): Option<Report> {
    if SERVERS !in p || SERVER_OPTIONS in p then Some(Report(p, false))
    else if !p[SERVERS].Dict? || exists sid :: sid in p[SERVERS].entries && Raises(p[SERVERS].entries[sid]) then None
    else Some(Report(p[SERVER_OPTIONS := Dict(CarriedOver(p[SERVERS].entries))] - {SERVERS}, true))
  }

  function EnsureServers(p: Entries): Option<Report> {
    if SERVER_OPTIONS in p then Some(Report(p, false)) else Some(Report(p[SERVER_OPTIONS := EMPTY], true))
  }

  function FixDefaults(p: Entries): Option<Report> {
    var p' := Mapped(p, DEFAULTS, Fixed);
    Some(Report(p', p' != p))
  }

  function Each(servers: Entries, f: Node --> Node): Entries
    requires forall sid :: sid in servers ==> f.requires(servers[sid])
  {
    map sid | sid in servers :: f(servers[sid])
  }

  function FixServers(p: Entries): Option<Report> {
    if SERVER_OPTIONS !in p then Some(Report(p, false))
    else if !p[SERVER_OPTIONS].Dict? then None
    else
      var p' := p[SERVER_OPTIONS := Dict(Each(p[SERVER_OPTIONS].entries, Fixed))];
      Some(Report(p', p' != p))
  }

  function MoveDefaults(p: Entries): Option<Report> {
    if DEFAULTS !in p then Some(Report(p, false))
    else if !Movable(p[DEFAULTS]) then None
    else
      var p' := p[DEFAULTS := Moved(p[DEFAULTS])];
      Some(Report(p', p' != p))
  }

  function MoveServers(p: Entries): Option<Report> {
    if SERVER_OPTIONS !in p then Some(Report(p, false))
    else if !p[SERVER_OPTIONS].Dict? then None
    else if exists sid :: sid in p[SERVER_OPTIONS].entries && !Movable(p[SERVER_OPTIONS].entries[sid]) then None
    else
      var p' := p[SERVER_OPTIONS := Dict(Each(p[SERVER_OPTIONS].entries, Moved))];
      Some(Report(p', p' != p))
  }

  datatype Migration = Servers | Ensure | LanguageOfDefaults | LanguageOfServers | TablesOfDefaults | TablesOfServers

  /** The six migrations. */
  function Apply(m: Migration, p: Entries): Option<Report> {
    match m
    case Servers => MigrateServers(p)
    case Ensure => EnsureServers(p)
    case LanguageOfDefaults => FixDefaults(p)
    case LanguageOfServers => FixServers(p)
    case TablesOfDefaults => MoveDefaults(p)
    case TablesOfServers => MoveServers(p)
  }

  const ALL: seq<Migration> :=
    [Servers, Ensure, LanguageOfDefaults, LanguageOfServers, TablesOfDefaults, TablesOfServers]

  /** Migrations one after the other. */
  function ApplyAll(ms: seq<Migration>, p: Entries): Option<Report> {
    if ms == [] then Some(Report(p, false))
    else
      match Apply(ms[0], p)
      case None => None
      case Some(r) =>
        match ApplyAll(ms[1..], r.profile)
        case None => None
        case Some(rest) => Some(Report(rest.profile, r.changed || rest.changed))
  }

  function Migrate(p: Entries): Option<Report> {
    ApplyAll(ALL, p)
  }
}
