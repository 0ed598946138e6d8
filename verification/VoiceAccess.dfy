/**
 Who may join table voice, whose presence begins and whose ends (server/core/voice_mixin.py), in terms of tables,
 members, mutes and packets.
 */
module VoiceAccess {
  import opened Wrappers
  import opened VoiceProtocol
  import opened VoiceTheorems

  // ------------------------------------------------- the table of a packet

  /** A packet is about the table it names by its context or else by its table id, or if it names none about the
      first table the user sits at; and the user is a member there. */
  ghost predicate SpeaksAt(tables: seq<Table>, user: User, p: Packet, id: TableId) {
    var named := if p.context != "" then p.context else p.table;
    exists i :: 0 <= i < |tables| && tables[i].id == id && user in tables[i].members &&
                (if named != "" then id == named && IsFirst(tables, id, i) else IsFirstSeat(tables, user, i))
  }

  predicate IsFirst(tables: seq<Table>, id: TableId, i: nat)
    requires i < |tables|
  {
    tables[i].id == id && forall j :: 0 <= j < i ==> tables[j].id != id
  }

  predicate IsFirstSeat(tables: seq<Table>, user: User, i: nat)
    requires i < |tables|
  {
    user in tables[i].members && forall j :: 0 <= j < i ==> user !in tables[j].members
  }

  lemma {:induction false} FindIsFirst(tables: seq<Table>, id: TableId, t: Table)
    ensures Find(tables, id) == Some(t) <==> exists i :: 0 <= i < |tables| && tables[i] == t && IsFirst(tables, id, i)
  {
    if tables == [] {
    } else if tables[0].id == id {
      assert IsFirst(tables, id, 0);
    } else {
      FindIsFirst(tables[1..], id, t);
      if i :| 0 <= i < |tables| && tables[i] == t && IsFirst(tables, id, i) {
        assert tables[1..][i - 1] == t && forall j :: 0 <= j < i - 1 ==> tables[1..][j] == tables[j + 1];
        assert IsFirst(tables[1..], id, i - 1);
      }
      if i :| 0 <= i < |tables[1..]| && tables[1..][i] == t && IsFirst(tables[1..], id, i) {
        assert tables[i + 1] == t && forall j :: 0 < j <= i ==> tables[j] == tables[1..][j - 1];
        assert IsFirst(tables, id, i + 1);
      }
    }
  }

  lemma {:induction false} SeatIsFirst(tables: seq<Table>, user: User, t: Table)
    ensures FindUserTable(tables, user) == Some(t) <==>
              exists i :: 0 <= i < |tables| && tables[i] == t && IsFirstSeat(tables, user, i)
  {
    if tables == [] {
    } else if user in tables[0].members {
      assert IsFirstSeat(tables, user, 0);
    } else {
      SeatIsFirst(tables[1..], user, t);
      if i :| 0 <= i < |tables| && tables[i] == t && IsFirstSeat(tables, user, i) {
        assert tables[1..][i - 1] == t && forall j :: 0 <= j < i - 1 ==> tables[1..][j] == tables[j + 1];
        assert IsFirstSeat(tables[1..], user, i - 1);
      }
      if i :| 0 <= i < |tables[1..]| && tables[1..][i] == t && IsFirstSeat(tables[1..], user, i) {
        assert tables[i + 1] == t && forall j :: 0 < j <= i ==> tables[j] == tables[1..][j - 1];
        assert IsFirstSeat(tables, user, i + 1);
      }
    }
  }

  lemma ResolvesIff(s: VoiceState, user: User, p: Packet, id: TableId)
    ensures Resolve(s, user, p) == Some(id) <==> SpeaksAt(s.tables, user, p, id)
  {
    hide Find, FindUserTable, IsFirst, IsFirstSeat;
    var named := if p.context != "" then p.context else p.table;
    var found := if named != "" then Find(s.tables, named) else FindUserTable(s.tables, user);
    if Resolve(s, user, p) == Some(id) {
      FindIsFirst(s.tables, named, found.value);
      SeatIsFirst(s.tables, user, found.value);
      FoundHasId(s.tables, named);
    }
    if SpeaksAt(s.tables, user, p, id) {
      var i :| 0 <= i < |s.tables| && s.tables[i].id == id && user in s.tables[i].members &&
               (if named != "" then id == named && IsFirst(s.tables, id, i) else IsFirstSeat(s.tables, user, i));
      FindIsFirst(s.tables, named, s.tables[i]);
      SeatIsFirst(s.tables, user, s.tables[i]);
    }
  }

  lemma FoundHasId(tables: seq<Table>, id: TableId)
    ensures Find(tables, id).Some? ==> Find(tables, id).value.id == id
  {
    FindFinds(tables, id);
  }

  /** No mute of the user is permanent or still running. */
  predicate MayTalk(s: VoiceState, user: User, wall: int) {
    user in s.mutes ==> s.mutes[user].Some? && s.mutes[user].value <= wall
  }

  // ---------------------------------------------------------------- joining

  /** The user may join the voice of this table. */
  ghost predicate MayJoin(s: VoiceState, e: Event, id: TableId)
    requires e.Join?
  {
    && e.allowed && e.ready && MayTalk(s, e.user, e.wall)
    && e.packet.scope == "table" && SpeaksAt(s.tables, e.user, e.packet, id)
  }

  lemma GrantedIff(s: VoiceState, e: Event, id: TableId)
    requires e.Join?
    ensures Granted(s, e) == Some(id) <==> MayJoin(s, e, id)
  {
    hide Resolve, SpeaksAt;
    ResolvesIff(s, e.user, e.packet, id);
  }

  /** A join leaves an online user with a grant for a table, good for 120 seconds, if and only if the rate limiter
      allowed it, the service is ready, no mute stands against it, and the user may speak at that table; and
      otherwise with no grant at all.  It changes nothing else. */
  lemma JoinGrantsIff(s: VoiceState, e: Event, id: TableId)
    requires e.Join?
    ensures var s' := Step(s, e);
            && s' == s.(grants := s'.grants) && s'.grants - {e.user} == s.grants - {e.user}
            && (e.user !in s.online ==> s' == s)
            && (e.user in s.online ==>
                  && (e.user in s'.grants && s'.grants[e.user] == Grant(id, e.clock + 120.0) <==> MayJoin(s, e, id))
                  && (e.user in s'.grants ==> MayJoin(s, e, s'.grants[e.user].table)))
  {
    hide Granted, MayJoin, AfterConnected, AfterMute, AfterRemove, AfterAdd, PresenceMatches, Find, Cleared,
      WithoutTable;
    GrantedIff(s, e, id);
    var s' := Step(s, e);
    if e.user in s.online && Granted(s, e).Some? {
      GrantedIff(s, e, Granted(s, e).value);
    }
    assert s'.grants - {e.user} == s.grants - {e.user};
  }

  // ------------------------------------------------------------- connecting

  /** A connection report that is about this table. */
  ghost predicate Reports(s: VoiceState, e: Event, id: TableId)
    requires e.Connected?
  {
    && e.user in s.online && e.packet.scope == "table" && SpeaksAt(s.tables, e.user, e.packet, id)
    && (e.packet.context != "" ==> id == e.packet.context)
  }

  lemma ReportedIff(s: VoiceState, e: Event, id: TableId)
    requires e.Connected?
    ensures Reported(s, e) == Some(id) <==> Reports(s, e, id)
  {
    hide Resolve, SpeaksAt;
    ResolvesIff(s, e.user, e.packet, id);
    if Resolve(s, e.user, e.packet).Some? {
      ResolvesIff(s, e.user, e.packet, Resolve(s, e.user, e.packet).value);
    }
  }

  /** A connection report puts a user in the voice of a table if and only if it is about that table, no mute
      stands against it and the user holds an unexpired grant for it; the grant is then used up.  Of other
      reports, one about a table takes the grant away if the user is muted or the grant has expired. */
  lemma ConnectingIff(s: VoiceState, e: Event, id: TableId)
    requires e.Connected?
    ensures var s' := Step(s, e);
            var used := Reports(s, e, id) && MayTalk(s, e.user, e.wall)
                        && e.user in s.grants && s.grants[e.user].table == id && e.clock <= s.grants[e.user].expiresAt;
            && (used ==> s' == s.(grants := s.grants - {e.user}, presence := s.presence[e.user := id]))
            && (Reports(s, e, id) && !used ==>
                  var lost := !MayTalk(s, e.user, e.wall)
                              || (e.user in s.grants && e.clock > s.grants[e.user].expiresAt);
                  s' == if lost then s.(grants := s.grants - {e.user}) else s)
    ensures (forall other :: !Reports(s, e, other)) ==> Step(s, e) == s
  {
    hide Reported, Reports, AfterJoin, AfterMute, AfterRemove, AfterAdd, PresenceMatches, Find, Cleared, WithoutTable;
    ReportedIff(s, e, id);
    if Reported(s, e).Some? {
      ReportedIff(s, e, Reported(s, e).value);
    }
  }

  // ----------------------------------------------------------------- ending

  /** A packet that names no context, or the table whose voice the user is in. */
  predicate AboutPresence(s: VoiceState, user: User, p: Packet) {
    p.context == "" || (user in s.presence && p.scope == "table" && p.context == s.presence[user])
  }

  /** A user's presence ends if and only if the user leaves, or is reported lost while online, by a packet about
      it; is muted while offline; or has the rest of a mute or a clear task of theirs carried out. */
  lemma PresenceEndsIff(s: VoiceState, e: Event, user: User)
    requires user in s.presence
    ensures user !in Step(s, e).presence <==>
              || (e.Leave? && e.user == user && AboutPresence(s, user, e.packet))
              || (e.Lost? && e.user == user && user in s.online && AboutPresence(s, user, e.packet))
              || (e.Mute? && e.user == user && user !in s.online)
              || (e.MuteTail? && e.user == user && user in s.muteTails)
              || (e.ClearTask? && e.user == user && user in s.clearTasks)
  {
    hide Reported, Granted, Find, Muted, Expired, Without, WithTable, WithoutTable;
  }

  // ------------------------------------------------------------------ mutes

  /** A mute stands as it was given until the user is muted anew or unmuted. */
  lemma MutesChangeOnly(s: VoiceState, e: Event, user: User)
    ensures var s' := Step(s, e);
            if e.Mute? && e.user == user then user in s'.mutes && s'.mutes[user] == e.expiresAt
            else if e.Unmute? && e.user == user then user !in s'.mutes
            else (user in s'.mutes <==> user in s.mutes) && (user in s.mutes ==> s'.mutes[user] == s.mutes[user])
  {
    hide Reported, Granted, Find, Muted, Expired, Without, WithTable, WithoutTable, PresenceMatches, Consumes;
  }

  /** Does an event mute or unmute this user? */
  predicate Remutes(e: Event, user: User) {
    (e.Mute? || e.Unmute?) && e.user == user
  }

  lemma {:induction false} MutesLast(s: VoiceState, run: seq<Event>, j: nat, n: nat, user: User)
    requires j <= n <= |run| && forall k :: j <= k < n ==> !Remutes(run[k], user)
    ensures user in At(s, run, n).mutes <==> user in At(s, run, j).mutes
    ensures user in At(s, run, j).mutes ==> At(s, run, n).mutes[user] == At(s, run, j).mutes[user]
    decreases n
  {
    hide Step;
    if j == n {
    } else {
      MutesLast(s, run, j, n - 1, user);
      MutesChangeOnly(At(s, run, n - 1), run[n - 1], user);
    }
  }

  /** From a mute until the user is muted anew or unmuted, no join of theirs before its expiry is granted, and no
      connection report of theirs puts them in a voice, whatever else happens; at its expiry the mute is over. */
  lemma MuteHolds(s: VoiceState, run: seq<Event>, j: nat, n: nat, id: TableId)
    requires j < n < |run| && run[j].Mute? && forall k :: j < k < n ==> !Remutes(run[k], run[j].user)
    ensures var user, expiry := run[j].user, run[j].expiresAt;
            && (forall wall: int :: MayTalk(At(s, run, n), user, wall) <==> expiry.Some? && expiry.value <= wall)
            && (run[n].Join? && run[n].user == user && !(expiry.Some? && expiry.value <= run[n].wall) ==>
                  user in At(s, run, n).online ==> user !in At(s, run, n + 1).grants)
            && (run[n].Connected? && run[n].user == user && !(expiry.Some? && expiry.value <= run[n].wall) ==>
                  !Begins(At(s, run, n), run[n], user, id))
  {
    hide Step, At, SpeaksAt, Begins;
    MutesLast(s, run, j + 1, n, run[j].user);
    AtLast(s, run, j + 1);
    AtLast(s, run, n + 1);
    MutesChangeOnly(At(s, run, j), run[j], run[j].user);
    if run[n].Join? {
      JoinGrantsIff(At(s, run, n), run[n], id);
    }
    if run[n].Connected? {
      ConnectingBegins(At(s, run, n), run[n], id);
    }
  }

  lemma ConnectingBegins(s: VoiceState, e: Event, id: TableId)
    requires e.Connected?
    ensures Begins(s, e, e.user, id) ==> MayTalk(s, e.user, e.wall)
  {
    hide Reports, Reported, AfterJoin, AfterMute, AfterRemove, AfterAdd, Find, Cleared, WithoutTable;
    ConnectingIff(s, e, id);
    if Reported(s, e).Some? {
      ReportedIff(s, e, Reported(s, e).value);
      ConnectingIff(s, e, Reported(s, e).value);
    }
  }

  // ----------------------------------------------------------- the registry

  ghost predicate Peopled(tables: seq<Table>) {
    forall t :: t in tables ==> t.members != []
  }

  lemma {:induction false} WithTableHas(tables: seq<Table>, t: Table, x: Table)
    ensures x in WithTable(tables, t) ==> x == t || (x in tables && x.id != t.id)
  {
    if tables == [] {
    } else {
      WithTableHas(tables[1..], t, x);
    }
  }

  lemma {:induction false} WithoutTableHas(tables: seq<Table>, id: TableId, x: Table)
    ensures x in WithoutTable(tables, id) <==> x in tables && x.id != id
  {
    if tables == [] {
    } else {
      WithoutTableHas(tables[1..], id, x);
      assert x in tables <==> x == tables[0] || x in tables[1..];
    }
  }

  /** A table ends with its last member: no event leaves an empty one. */
  lemma StepKeepsPeopled(s: VoiceState, e: Event)
    requires Peopled(s.tables)
    ensures Peopled(Step(s, e).tables)
  {
    hide Find, Without, WithTable, WithoutTable;
    forall x | x in Step(s, e).tables ensures x.members != [] {
      if e.DestroyTable? {
        WithoutTableHas(s.tables, e.id, x);
      } else if e.AddMember? && Find(s.tables, e.id).Some? {
        var t := Find(s.tables, e.id).value;
        WithTableHas(s.tables, Table(t.id, t.members + [e.user]), x);
      } else if e.RemoveMember? && Find(s.tables, e.id).Some? {
        var t := Find(s.tables, e.id).value;
        var left := Without(t.members, e.user);
        WithTableHas(s.tables, Table(t.id, left), x);
        WithoutTableHas(WithTable(s.tables, Table(t.id, left)), t.id, x);
      }
    }
  }

  lemma {:induction false} TablesStayPeopled(s: VoiceState, run: seq<Event>, n: nat)
    requires Peopled(s.tables) && n <= |run|
    ensures Peopled(At(s, run, n).tables)
  {
    hide Step, Peopled;
    if n == 0 {
    } else {
      TablesStayPeopled(s, run, n - 1);
      StepKeepsPeopled(At(s, run, n - 1), run[n - 1]);
    }
  }

  /** A clear task is set up exactly when somebody in voice is removed from a table there is, and done away with
      when it is carried out. */
  lemma TasksChangeOnly(s: VoiceState, e: Event)
    ensures Step(s, e).clearTasks
         == if e.RemoveMember? && Find(s.tables, e.id).Some? && e.user in s.presence
            then s.clearTasks + multiset{e.user}
            else if e.ClearTask? then s.clearTasks - multiset{e.user} else s.clearTasks
  {
    hide Reported, Granted, Find, Muted, Expired, Without, WithTable, WithoutTable, PresenceMatches, Consumes;
  }

  /** Who is a member of which table: its creator, whoever is added to it while it exists, and those who were,
      until they are removed or the table is destroyed. */
  lemma MembersIff(s: VoiceState, e: Event, id: TableId, user: User)
    requires UniqueIds(s.tables)
    ensures IsMember(Step(s, e), id, user) <==>
              || (IsMember(s, id, user) && !Unseats(s, e, id, user))
              || (e == CreateTable(id, user) && Find(s.tables, id).None?)
              || (e == AddMember(id, user) && Find(s.tables, id).Some?)
  {
    hide Without, WithTable, WithoutTable, Find, UniqueIds, AfterAdd, AfterRemove;
    StepKeepsMembers(s, e, id, user);
    match e
    case CreateTable(made, u) =>
      if Find(s.tables, made).None? {
        AppendFinds(s.tables, Table(made, [u]), id);
      }
    case AddMember(_, _) => MembersAfterAdd(s, e, id, user);
    case RemoveMember(_, _) => MembersAfterRemove(s, e, id, user);
    case DestroyTable(gone) => WithoutTableFinds(s.tables, gone, id);
    case _ => RegistryStays(s, e);
  }

  lemma MembersAfterAdd(s: VoiceState, e: Event, id: TableId, user: User)
    requires UniqueIds(s.tables) && e.AddMember?
    ensures IsMember(AfterAdd(s, e), id, user) <==>
              IsMember(s, id, user) || (e.id == id && e.user == user && Find(s.tables, id).Some?)
  {
    hide WithTable, Find, UniqueIds;
    if Find(s.tables, e.id).Some? {
      FindFinds(s.tables, e.id);
      WithTableFinds(s.tables, Table(e.id, Find(s.tables, e.id).value.members + [e.user]), id);
    }
  }

  lemma MembersAfterRemove(s: VoiceState, e: Event, id: TableId, user: User)
    requires UniqueIds(s.tables) && e.RemoveMember?
    ensures IsMember(AfterRemove(s, e), id, user) ==> IsMember(s, id, user)
  {
    hide Without, WithTable, WithoutTable, Find, UniqueIds;
    if Find(s.tables, e.id).Some? {
      FindFinds(s.tables, e.id);
      var left := Table(e.id, Without(Find(s.tables, e.id).value.members, e.user));
      WithTableFinds(s.tables, left, id);
      WithoutTableFinds(WithTable(s.tables, left), e.id, id);
      WithoutMembers(Find(s.tables, e.id).value.members, e.user, user);
    }
  }
}
