/**
 Table voice: join grants, presence, mutes and the tasks that tear presence down (server/core/voice_mixin.py,
 with the mute of server/core/administration.py and the member removal of server/core/tables/table.py).

 Each stretch of a handler between two suspension points is one event.  The rate limiter's answer and whether
 the voice service is configured are part of the event.  Sending never fails.
 */
module VoiceProtocol {
  import opened Wrappers

  type User = string
  type TableId = string

  datatype Table = Table(id: TableId, members: seq<User>)

  const WINDOW: real := 120.0
  const TABLE_SCOPE := "table"

  datatype Grant = Grant(table: TableId, expiresAt: real)

  datatype VoiceState = VoiceState(
    online: set<User>,
    tables: seq<Table>,
    mutes: map<User, Option<int>>,
    grants: map<User, Grant>,
    presence: map<User, TableId>,
    clearTasks: multiset<User>,
    muteTails: multiset<User>)

  /** What a client names in a packet: a context, or else a table, or else neither. */
  datatype Packet = Packet(scope: string, context: string, table: string)

  datatype Event =
    | Join(user: User, packet: Packet, allowed: bool, ready: bool, clock: real, wall: int)
    | Connected(user: User, packet: Packet, clock: real, wall: int)
    | Lost(user: User, packet: Packet)
    | Leave(user: User, packet: Packet)
    | Mute(user: User, expiresAt: Option<int>)
    | MuteTail(user: User)
    | Unmute(user: User)
    | ClearTask(user: User)
    | CreateTable(id: TableId, user: User)
    | AddMember(id: TableId, user: User)
    | RemoveMember(id: TableId, user: User)
    | DestroyTable(id: TableId)
    | GoOnline(user: User)
    | GoOffline(user: User)

  // -------------------------------------------------------------- lookups

  function Find(tables: seq<Table>, id: TableId): Option<Table> {
    if tables == [] then None else if tables[0].id == id then Some(tables[0]) else Find(tables[1..], id)
  }

  /** The first table a user is a member of. */
  function FindUserTable(tables: seq<Table>, user: User): Option<Table> {
    if tables == [] then None
    else if user in tables[0].members then Some(tables[0])
    else FindUserTable(tables[1..], user)
  }

  predicate IsMember(s: VoiceState, id: TableId, user: User) {
    Find(s.tables, id).Some? && user in Find(s.tables, id).value.members
  }

  /** The table a packet refers to, if the user may speak there. */
  function Resolve(s: VoiceState, user: User, p: Packet): Option<TableId> {
    var requested := if p.context != "" then p.context else p.table;
    var table := if requested != "" then Find(s.tables, requested) else FindUserTable(s.tables, user);
    if table.None? || user !in table.value.members then None else Some(table.value.id)
  }

  predicate Muted(s: VoiceState, user: User, wall: int) {
    user in s.mutes && (s.mutes[user].None? || s.mutes[user].value > wall)
  }

  predicate PresenceMatches(s: VoiceState, user: User, p: Packet) {
    user in s.presence && (p.context == "" || (p.scope == TABLE_SCOPE && s.presence[user] == p.context))
  }

  // ---------------------------------------------------------------- steps

  function Revoke(s: VoiceState, user: User): VoiceState {
    s.(grants := s.grants - {user})
  }

  /** Presence and grant both gone. */
  function Cleared(s: VoiceState, user: User): VoiceState {
    s.(grants := s.grants - {user}, presence := s.presence - {user})
  }

  /** The table a join request is granted for, if it is. */
  function Granted(s: VoiceState, e: Event): Option<TableId>
    requires e.Join?
  {
    if !e.allowed || Muted(s, e.user, e.wall) || e.packet.scope != TABLE_SCOPE then None
    else if !e.ready then None
    else Resolve(s, e.user, e.packet)
  }

  function AfterJoin(s: VoiceState, e: Event): VoiceState
    requires e.Join?
  {
    if e.user !in s.online then s
    else
      match Granted(s, e)
      case None => Revoke(s, e.user)
      case Some(id) =>
        s.(grants := s.grants[e.user := Grant(id, e.clock + WINDOW)])
  }

  /** The table a connection report is about, if the report is acceptable at all. */
  function Reported(s: VoiceState, e: Event): Option<TableId>
    requires e.Connected?
  {
    if e.user !in s.online || e.packet.scope != TABLE_SCOPE then None
    else
      match Resolve(s, e.user, e.packet)
      case None => None
      case Some(id) => if e.packet.context != "" && id != e.packet.context then None else Some(id)
  }

  predicate Expired(s: VoiceState, user: User, clock: real) {
    user in s.grants && clock > s.grants[user].expiresAt
  }

  /** Does the report use up the user's grant? */
  predicate Consumes(s: VoiceState, e: Event)
    requires e.Connected?
  {
    && Reported(s, e).Some? && !Muted(s, e.user, e.wall)
    && e.user in s.grants && !Expired(s, e.user, e.clock)
    && s.grants[e.user].table == Reported(s, e).value
  }

  function AfterConnected(s: VoiceState, e: Event): VoiceState
    requires e.Connected?
  {
    if Reported(s, e).None? then s
    else if Muted(s, e.user, e.wall) || Expired(s, e.user, e.clock) then Revoke(s, e.user)
    else if !Consumes(s, e) then s
    else Revoke(s, e.user).(presence := s.presence[e.user := Reported(s, e).value])
  }

  /** Muting: the record, no more grant; and presence goes, but only after the user's client was told. */
  function AfterMute(s: VoiceState, e: Event): VoiceState
    requires e.Mute?
  {
    var s' := Revoke(s, e.user).(mutes := s.mutes[e.user := e.expiresAt]);
    if e.user !in s.presence then s'
    else if e.user in s.online then s'.(muteTails := s.muteTails + multiset{e.user})
    else Cleared(s', e.user)
  }

  function Without(members: seq<User>, user: User): seq<User> {
    if members == [] then [] else (if members[0] == user then [] else [members[0]]) + Without(members[1..], user)
  }

  function WithTable(tables: seq<Table>, t: Table): seq<Table> {
    if tables == [] then [] else (if tables[0].id == t.id then [t] else [tables[0]]) + WithTable(tables[1..], t)
  }

  function WithoutTable(tables: seq<Table>, id: TableId): seq<Table> {
    if tables == [] then [] else (if tables[0].id == id then [] else [tables[0]]) + WithoutTable(tables[1..], id)
  }

  /** Removing a member: the registry, the hook, and the end of an empty table. */
  function AfterRemove(s: VoiceState, e: Event): VoiceState
    requires e.RemoveMember?
  {
    match Find(s.tables, e.id)
    case None => s
    case Some(t) =>
      var left := Without(t.members, e.user);
      var tables := WithTable(s.tables, Table(t.id, left));
      Revoke(s, e.user).(
        tables := if left == [] then WithoutTable(tables, t.id) else tables,
        clearTasks := if e.user in s.presence then s.clearTasks + multiset{e.user} else s.clearTasks)
  }

  function AfterAdd(s: VoiceState, e: Event): VoiceState
    requires e.AddMember?
  {
    match Find(s.tables, e.id)
    case None => s
    case Some(t) =>
      if e.user in t.members then s else s.(tables := WithTable(s.tables, Table(t.id, t.members + [e.user])))
  }

  function Step(s: VoiceState, e: Event): VoiceState {
    match e
    case Join(_, _, _, _, _, _) => AfterJoin(s, e)
    case Connected(_, _, _, _) => AfterConnected(s, e)
    case Lost(user, packet) => if user in s.online && PresenceMatches(s, user, packet) then Cleared(s, user) else s
    case Leave(user, packet) => if PresenceMatches(s, user, packet) then Cleared(s, user) else Revoke(s, user)
    case Mute(_, _) => AfterMute(s, e)
    case MuteTail(user) =>
      if user in s.muteTails then Cleared(s, user).(muteTails := s.muteTails - multiset{user}) else s
    case Unmute(user) => s.(mutes := s.mutes - {user})
    case ClearTask(user) =>
      if user in s.clearTasks then Cleared(s, user).(clearTasks := s.clearTasks - multiset{user}) else s
    case CreateTable(id, user) => if Find(s.tables, id).Some? then s else s.(tables := s.tables + [Table(id, [user])])
    case AddMember(_, _) => AfterAdd(s, e)
    case RemoveMember(_, _) => AfterRemove(s, e)
    case DestroyTable(id) => s.(tables := WithoutTable(s.tables, id))
    case GoOnline(user) => s.(online := s.online + {user})
    case GoOffline(user) => s.(online := s.online - {user})
  }

  /** The state after the first n events. */
  function At(s: VoiceState, run: seq<Event>, n: nat): VoiceState
    requires n <= |run|
  {
    if n == 0 then s else Step(At(s, run, n - 1), run[n - 1])
  }

  /** Nobody is in voice yet and nothing is under way. */
  predicate Quiet(s: VoiceState) {
    s.grants == map[] && s.presence == map[] && s.clearTasks == multiset{} && s.muteTails == multiset{}
  }
}
