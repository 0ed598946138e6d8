/** The voice handlers as they run (server/core/voice_mixin.py), against the steps of VoiceProtocol. */
module VoiceRooms {
  import opened Wrappers
  import opened VoiceProtocol

  lemma StepIs(s: VoiceState, e: Event)
    ensures e.Join? ==> Step(s, e) == AfterJoin(s, e)
    ensures e.Mute? ==> Step(s, e) == AfterMute(s, e)
    ensures e.RemoveMember? ==> Step(s, e) == AfterRemove(s, e)
  {
  }

  lemma LooksPastGrants(s: VoiceState, s': VoiceState, user: User, p: Packet, wall: int)
    requires s' == s.(grants := s'.grants)
    ensures Resolve(s', user, p) == Resolve(s, user, p) && (Muted(s', user, wall) <==> Muted(s, user, wall))
  {
  }

  class VoiceServer {
    var online: set<User>
    var tables: seq<Table>
    var mutes: map<User, Option<int>>
    var grants: map<User, Grant>
    var presence: map<User, TableId>
    // Scheduled tasks that will clear a user's presence, and mutes waiting for the user's client.
    var clearTasks: multiset<User>
    var muteTails: multiset<User>

    function State(): VoiceState
      reads this
    {
      VoiceState(online, tables, mutes, grants, presence, clearTasks, muteTails)
    }

    constructor (online: set<User>, tables: seq<Table>, mutes: map<User, Option<int>>)
      ensures Quiet(State()) && this.online == online && this.tables == tables && this.mutes == mutes
    {
      this.online, this.tables, this.mutes := online, tables, mutes;
      grants, presence, clearTasks, muteTails := map[], map[], multiset{}, multiset{};
    }

    method ResolveTableContext(user: User, packet: Packet) returns (table: Option<TableId>)
      ensures table == Resolve(State(), user, packet)
    {
      var requested := if packet.context != "" then packet.context else packet.table;
      var found := if requested != "" then Find(tables, requested) else FindUserTable(tables, user);
      if found.None? {
        return None;
      }
      if user !in found.value.members {
        return None;
      }
      return Some(found.value.id);
    }

    method IsMuted(user: User, wall: int) returns (muted: bool)
      ensures muted <==> Muted(State(), user, wall)
    {
      muted := user in mutes && (mutes[user].None? || mutes[user].value > wall);
    }

    // ------------------------------------------------- join authorizations

    method RecordJoinAuthorization(user: User, table: TableId, clock: real)
      modifies this`grants
      ensures grants == old(grants)[user := Grant(table, clock + WINDOW)]
    {
      grants := grants[user := Grant(table, clock + WINDOW)];
    }

    method ClearJoinAuthorization(user: User)
      modifies this`grants
      ensures grants == old(grants) - {user}
    {
      grants := grants - {user};
    }

    method ConsumeJoinAuthorization(user: User, table: TableId, clock: real) returns (consumed: bool)
      modifies this`grants
      ensures consumed <==>
              user in old(grants) && clock <= old(grants)[user].expiresAt && old(grants)[user].table == table
      ensures grants == if consumed || (user in old(grants) && clock > old(grants)[user].expiresAt)
              then old(grants) - {user}
                        else old(grants)
    {
      if user !in grants {
        return false;
      }
      var auth := grants[user];
      if clock > auth.expiresAt {
        ClearJoinAuthorization(user);
        return false;
      }
      if auth.table != table {
        return false;
      }
      ClearJoinAuthorization(user);
      return true;
    }

    // ------------------------------------------------------------- handlers

    method HandleVoiceJoin(user: User, packet: Packet, allowed: bool, ready: bool, clock: real, wall: int)
      returns (granted: Option<TableId>)
      modifies this`grants
      ensures State() == Step(old(State()), Join(user, packet, allowed, ready, clock, wall))
      ensures granted
           == if user in online then Granted(old(State()), Join(user, packet, allowed, ready, clock, wall)) else None
    {
      hide Resolve, Muted, Step;
      StepIs(State(), Join(user, packet, allowed, ready, clock, wall));
      LooksPastGrants(State(), State().(grants := grants - {user}), user, packet, wall);
      if user !in online {
        return None;
      }
      ClearJoinAuthorization(user);
      if !allowed {
        return None;
      }
      var muted := IsMuted(user, wall);
      if muted {
        return None;
      }
      if packet.scope != TABLE_SCOPE {
        return None;
      }
      var context := ResolveTableContext(user, packet);
      if context.None? || !ready {
        return None;
      }
      RecordJoinAuthorization(user, context.value, clock);
      assert grants == old(grants)[user := Grant(context.value, clock + WINDOW)];
      return context;
    }

    method RegisterVoicePresence(user: User, packet: Packet, clock: real, wall: int)
      modifies this`grants, this`presence
      ensures State() == Step(old(State()), Connected(user, packet, clock, wall))
    {
      if user !in online || packet.scope != TABLE_SCOPE {
        return;
      }
      var context := ResolveTableContext(user, packet);
      if context.None? {
        return;
      }
      if packet.context != "" && context.value != packet.context {
        return;
      }
      var muted := IsMuted(user, wall);
      if muted {
        ClearJoinAuthorization(user);
        return;
      }
      var consumed := ConsumeJoinAuthorization(user, context.value, clock);
      if !consumed {
        return;
      }
      if user in presence && presence[user] == context.value {
        assert presence[user := context.value] == presence;
        return;
      }
      if user in presence {
        ClearVoicePresence(user);
        assert old(presence)[user := context.value] == (old(presence) - {user})[user := context.value];
      }
      presence := presence[user := context.value];
    }

    method HandleVoiceLost(user: User, packet: Packet)
      modifies this`grants, this`presence, this`muteTails
      ensures State() == Step(old(State()), Lost(user, packet))
    {
      if user in online && PresenceMatches(State(), user, packet) {
        DisconnectUserFromVoice(user, false);
      }
    }

    method HandleVoiceLeave(user: User, packet: Packet)
      modifies this`grants, this`presence, this`muteTails
      ensures State() == Step(old(State()), Leave(user, packet))
    {
      ClearJoinAuthorization(user);
      if PresenceMatches(State(), user, packet) {
        DisconnectUserFromVoice(user, false);
        assert old(grants) - {user} - {user} == old(grants) - {user};
      }
    }

    // ------------------------------------------------------------- presence

    /** Ends a user's presence, at once or, if the user's client is to be told first, after that. */
    method DisconnectUserFromVoice(user: User, tellFirst: bool)
      modifies this`grants, this`presence, this`muteTails
      ensures grants == old(grants) - {user}
      ensures var waits := user in old(presence) && tellFirst && user in online;
              && presence == (if waits then old(presence) else old(presence) - {user})
              && muteTails == (if waits then old(muteTails) + multiset{user} else old(muteTails))
    {
      ClearJoinAuthorization(user);
      if user !in presence {
        assert presence - {user} == presence;
        return;
      }
      if tellFirst && user in online {
        muteTails := muteTails + multiset{user};
        return;
      }
      ClearVoicePresence(user);
      assert old(grants) - {user} - {user} == old(grants) - {user};
    }

    method ClearVoicePresence(user: User)
      modifies this`grants, this`presence
      ensures grants == old(grants) - {user} && presence == old(presence) - {user}
    {
      ClearJoinAuthorization(user);
      presence := presence - {user};
    }

    method RunClearTask(user: User)
      requires user in clearTasks
      modifies this`grants, this`presence, this`clearTasks
      ensures State() == Step(old(State()), ClearTask(user))
    {
      hide AfterJoin, AfterConnected, AfterMute, AfterAdd, AfterRemove, PresenceMatches;
      clearTasks := clearTasks - multiset{user};
      ClearVoicePresence(user);
    }

    // ---------------------------------------------------- mutes and removal

    method MuteUser(user: User, expiresAt: Option<int>)
      modifies this`mutes, this`grants, this`presence, this`muteTails
      ensures State() == Step(old(State()), Mute(user, expiresAt))
    {
      hide Step;
      StepIs(State(), Mute(user, expiresAt));
      mutes := mutes[user := expiresAt];
      DisconnectUserFromVoice(user, true);
      if user !in old(presence) {
        assert old(presence) - {user} == old(presence);
      }
      assert old(grants) - {user} - {user} == old(grants) - {user};
    }

    method FinishMute(user: User)
      requires user in muteTails
      modifies this`grants, this`presence, this`muteTails
      ensures State() == Step(old(State()), MuteTail(user))
    {
      hide AfterJoin, AfterConnected, AfterMute, AfterAdd, AfterRemove, PresenceMatches;
      muteTails := muteTails - multiset{user};
      ClearVoicePresence(user);
    }

    method RemoveMember(id: TableId, user: User)
      modifies this`tables, this`grants, this`clearTasks
      ensures State() == Step(old(State()), VoiceProtocol.RemoveMember(id, user))
    {
      hide Find, Without, WithTable, WithoutTable, Step;
      StepIs(State(), VoiceProtocol.RemoveMember(id, user));
      var table := Find(tables, id);
      if table.None? {
        return;
      }
      var left := Without(table.value.members, user);
      tables := WithTable(tables, Table(table.value.id, left));
      OnTableMemberRemoved(user);
      if left == [] {
        tables := WithoutTable(tables, table.value.id);
      }
    }

    method OnTableMemberRemoved(user: User)
      modifies this`grants, this`clearTasks
      ensures grants == old(grants) - {user}
      ensures clearTasks == if user in presence then old(clearTasks) + multiset{user} else old(clearTasks)
    {
      ClearJoinAuthorization(user);
      if user !in presence {
        return;
      }
      clearTasks := clearTasks + multiset{user};
    }
  }
}
