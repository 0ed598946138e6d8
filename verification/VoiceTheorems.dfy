/** What holds over every run of the voice protocol. */
module VoiceTheorems {
  import opened Wrappers
  import opened VoiceProtocol

  // ------------------------------------------------------------- registry

  ghost predicate UniqueIds(tables: seq<Table>) {
    forall i, j :: 0 <= i < j < |tables| ==> tables[i].id != tables[j].id
  }

  lemma UniqueTail(tables: seq<Table>)
    requires tables != [] && UniqueIds(tables)
    ensures UniqueIds(tables[1..]) && Find(tables[1..], tables[0].id) == None
  {
    var rest := tables[1..];
    forall i, j | 0 <= i < j < |rest| ensures rest[i].id != rest[j].id {
      assert tables[i + 1].id != tables[j + 1].id;
    }
    forall t | t in rest ensures t.id != tables[0].id {
      var k :| 0 <= k < |rest| && rest[k] == t;
      assert tables[k + 1] == t;
    }
    FindFinds(rest, tables[0].id);
  }

  lemma {:induction false} FindFinds(tables: seq<Table>, id: TableId)
    ensures Find(tables, id).Some? ==> Find(tables, id).value in tables && Find(tables, id).value.id == id
    ensures Find(tables, id).None? ==> forall t :: t in tables ==> t.id != id
  {
    if tables != [] && tables[0].id != id {
      FindFinds(tables[1..], id);
      assert forall t :: t in tables <==> t == tables[0] || t in tables[1..];
    }
  }

  lemma {:induction false} UserTableIsFound(tables: seq<Table>, user: User)
    requires UniqueIds(tables) && FindUserTable(tables, user).Some?
    ensures var t := FindUserTable(tables, user).value; user in t.members && Find(tables, t.id) == Some(t)
  {
    if user !in tables[0].members {
      UniqueTail(tables);
      UserTableIsFound(tables[1..], user);
    }
  }

  lemma UniqueCons(t: Table, tables: seq<Table>)
    requires UniqueIds(tables) && Find(tables, t.id) == None
    ensures UniqueIds([t] + tables)
  {
    FindFinds(tables, t.id);
    var r := [t] + tables;
    forall i, j | 0 <= i < j < |r| ensures r[i].id != r[j].id {
      assert r[j] == tables[j - 1];
      if i > 0 {
        assert r[i] == tables[i - 1];
      }
    }
  }

  /** Replacing a table by one of the same id. */
  lemma {:induction false} WithTableFinds(tables: seq<Table>, t: Table, id: TableId)
    requires UniqueIds(tables)
    ensures UniqueIds(WithTable(tables, t))
    ensures Find(WithTable(tables, t), id)
            == if id == t.id && Find(tables, id).Some? then Some(t) else Find(tables, id)
    decreases |tables|
  {
    if tables == [] {
    } else {
      UniqueTail(tables);
      WithTableFinds(tables[1..], t, id);
      WithTableFinds(tables[1..], t, tables[0].id);
      UniqueCons(if tables[0].id == t.id then t else tables[0], WithTable(tables[1..], t));
    }
  }

  lemma {:induction false} WithoutTableFinds(tables: seq<Table>, gone: TableId, id: TableId)
    requires UniqueIds(tables)
    ensures UniqueIds(WithoutTable(tables, gone))
    ensures Find(WithoutTable(tables, gone), id) == if id == gone then None else Find(tables, id)
    decreases |tables|
  {
    if tables == [] {
    } else {
      UniqueTail(tables);
      WithoutTableFinds(tables[1..], gone, id);
      WithoutTableFinds(tables[1..], gone, tables[0].id);
      if tables[0].id != gone {
        UniqueCons(tables[0], WithoutTable(tables[1..], gone));
      } else {
        assert WithoutTable(tables, gone) == WithoutTable(tables[1..], gone);
      }
    }
  }

  lemma OneIsUnique(t: Table)
    ensures UniqueIds([t])
  {
  }

  lemma {:induction false} AppendFinds(tables: seq<Table>, t: Table, id: TableId)
    requires UniqueIds(tables) && Find(tables, t.id) == None
    ensures UniqueIds(tables + [t])
    ensures Find(tables + [t], id) == if id == t.id then Some(t) else Find(tables, id)
    decreases |tables|
  {
    hide UniqueIds;
    if tables == [] {
      assert tables + [t] == [t];
      OneIsUnique(t);
    } else {
      UniqueTail(tables);
      assert (tables + [t])[1..] == tables[1..] + [t];
      AppendFinds(tables[1..], t, id);
      AppendFinds(tables[1..], t, tables[0].id);
      UniqueCons(tables[0], tables[1..] + [t]);
      assert tables + [t] == [tables[0]] + (tables[1..] + [t]);
    }
  }

  lemma {:induction false} WithoutMembers(members: seq<User>, user: User, other: User)
    ensures other in Without(members, user) <==> other in members && other != user
  {
    if members == [] {
    } else {
      WithoutMembers(members[1..], user, other);
      assert other in members <==> other == members[0] || other in members[1..];
    }
  }

  /** Which table an event may take this user away from. */
  predicate Unseats(s: VoiceState, e: Event, id: TableId, user: User) {
    || (e.RemoveMember? && e.id == id && e.user == user)
    || (e.DestroyTable? && e.id == id)
  }

  /** Events keep table ids unique and everybody's membership except the one they end. */
  lemma StepKeepsMembers(s: VoiceState, e: Event, id: TableId, user: User)
    requires UniqueIds(s.tables)
    ensures UniqueIds(Step(s, e).tables)
    ensures IsMember(s, id, user) && !Unseats(s, e, id, user) ==> IsMember(Step(s, e), id, user)
    ensures IsMember(s, id, user) && Unseats(s, e, id, user) ==> !IsMember(Step(s, e), id, user)
  {
    hide Without, WithTable, WithoutTable, Find, UniqueIds, AfterAdd, AfterRemove;
    match e
    case CreateTable(fresh_, u) =>
      if Find(s.tables, fresh_).None? {
        AppendFinds(s.tables, Table(fresh_, [u]), id);
      }
    case AddMember(t, u) => AddKeepsMembers(s, e, id, user);
    case RemoveMember(t, u) => RemoveKeepsMembers(s, e, id, user);
    case DestroyTable(t) => WithoutTableFinds(s.tables, t, id);
    case _ => RegistryStays(s, e);
  }

  lemma RegistryStays(s: VoiceState, e: Event)
    requires !e.CreateTable? && !e.AddMember? && !e.RemoveMember? && !e.DestroyTable?
    ensures Step(s, e).tables == s.tables
  {
  }

  lemma AddKeepsMembers(s: VoiceState, e: Event, id: TableId, user: User)
    requires UniqueIds(s.tables) && e.AddMember?
    ensures UniqueIds(AfterAdd(s, e).tables)
    ensures IsMember(s, id, user) ==> IsMember(AfterAdd(s, e), id, user)
  {
    hide WithTable, Find, UniqueIds;
    if Find(s.tables, e.id).Some? {
      FindFinds(s.tables, e.id);
      WithTableFinds(s.tables, Table(e.id, Find(s.tables, e.id).value.members + [e.user]), id);
    }
  }

  lemma RemoveKeepsMembers(s: VoiceState, e: Event, id: TableId, user: User)
    requires UniqueIds(s.tables) && e.RemoveMember?
    ensures UniqueIds(AfterRemove(s, e).tables)
    ensures IsMember(s, id, user) ==> (IsMember(AfterRemove(s, e), id, user) <==> !(e.id == id && e.user == user))
  {
    hide Without, WithTable, WithoutTable, Find, UniqueIds;
    if Find(s.tables, e.id).Some? {
      FindFinds(s.tables, e.id);
      var left := Table(e.id, Without(Find(s.tables, e.id).value.members, e.user));
      WithTableFinds(s.tables, left, id);
      WithoutTableFinds(WithTable(s.tables, left), e.id, id);
      WithoutMembers(Find(s.tables, e.id).value.members, e.user, user);
    }
  }

  lemma {:induction false} IdsStayUnique(s: VoiceState, run: seq<Event>, n: nat)
    requires UniqueIds(s.tables) && n <= |run|
    ensures UniqueIds(At(s, run, n).tables)
  {
    hide Step, UniqueIds;
    if n == 0 {
    } else {
      IdsStayUnique(s, run, n - 1);
      StepKeepsMembers(At(s, run, n - 1), run[n - 1], "", "");
    }
  }

  // ----------------------------------------------------------- join grants

  /** A join attempt, a leave, a mute, the removal from a table, a pending task, or a connection report that
      uses the grant up or finds it void: what ends a user's grant. */
  predicate Voids(s: VoiceState, e: Event, user: User) {
    match e
    case Join(u, _, _, _, _, _) => u == user && u in s.online
    case Connected(u, _, _, wall) =>
      u == user && Reported(s, e).Some? && (Muted(s, u, wall) || Expired(s, u, e.clock) || Consumes(s, e))
    case Lost(u, packet) => u == user && u in s.online && PresenceMatches(s, u, packet)
    case Leave(u, _) => u == user
    case Mute(u, _) => u == user
    case MuteTail(u) => u == user && u in s.muteTails
    case ClearTask(u) => u == user && u in s.clearTasks
    case RemoveMember(id, u) => u == user && Find(s.tables, id).Some?
    case _ => false
  }

  predicate Issues(s: VoiceState, e: Event, user: User) {
    e.Join? && e.user == user && user in s.online && Granted(s, e).Some?
  }

  /** A grant held after an event was issued by it, or was held before and not voided. */
  lemma GrantStep(s: VoiceState, e: Event, user: User)
    requires user in Step(s, e).grants
    ensures Issues(s, e, user) ==> Step(s, e).grants[user] == Grant(Granted(s, e).value, e.clock + WINDOW)
    ensures !Issues(s, e, user) ==> user in s.grants && Step(s, e).grants[user] == s.grants[user] && !Voids(s, e, user)
  {
    hide AfterJoin, AfterConnected, AfterMute, AfterRemove, Granted, Consumes, Reported, Muted, Expired, Find;
    if e.Join? {
      JoinStep(s, e, user);
    } else if e.Connected? {
      ConnectedStep(s, e, user);
    } else if e.Mute? || e.RemoveMember? {
      EndingStep(s, e, user);
    }
  }

  lemma JoinStep(s: VoiceState, e: Event, user: User)
    requires e.Join? && user in AfterJoin(s, e).grants
    ensures Issues(s, e, user) ==> AfterJoin(s, e).grants[user] == Grant(Granted(s, e).value, e.clock + WINDOW)
    ensures !Issues(s, e, user) ==>
              && user in s.grants && AfterJoin(s, e).grants[user] == s.grants[user]
              && !(e.user == user && user in s.online)
  {
    hide Granted;
  }

  lemma ConnectedStep(s: VoiceState, e: Event, user: User)
    requires e.Connected? && user in AfterConnected(s, e).grants
    ensures user in s.grants && AfterConnected(s, e).grants[user] == s.grants[user] && !Voids(s, e, user)
  {
    hide Reported, Muted;
  }

  lemma EndingStep(s: VoiceState, e: Event, user: User)
    requires e.Mute? || e.RemoveMember?
    requires user in Step(s, e).grants
    ensures user in s.grants && Step(s, e).grants[user] == s.grants[user] && !Voids(s, e, user)
    ensures !Issues(s, e, user)
  {
  }

  /** The event that issued the grant a user holds after n events. */
  ghost function IssuedAt(s: VoiceState, run: seq<Event>, n: nat, user: User): (i: nat)
    requires Quiet(s) && n <= |run| && user in At(s, run, n).grants
    ensures i < n
  {
    GrantStep(At(s, run, n - 1), run[n - 1], user);
    if Issues(At(s, run, n - 1), run[n - 1], user) then n - 1 else IssuedAt(s, run, n - 1, user)
  }

  /** Where a grant comes from, and that nothing ended it since. */
  lemma {:induction false} GrantIsEarned(s: VoiceState, run: seq<Event>, n: nat, user: User)
    requires Quiet(s) && n <= |run| && user in At(s, run, n).grants
    ensures var i := IssuedAt(s, run, n, user);
            && Issues(At(s, run, i), run[i], user)
            && At(s, run, n).grants[user].table == Granted(At(s, run, i), run[i]).value
            && At(s, run, n).grants[user].expiresAt == run[i].clock + WINDOW
            && forall k :: i < k < n ==> !Voids(At(s, run, k), run[k], user)
  {
    hide At, Step, Voids, Issues, Granted;
    AtLast(s, run, n);
    if n == 0 {
    } else {
      var before, e := At(s, run, n - 1), run[n - 1];
      GrantStep(before, e, user);
      if !Issues(before, e, user) {
        GrantIsEarned(s, run, n - 1, user);
      }
    }
  }

  lemma AtLast(s: VoiceState, run: seq<Event>, n: nat)
    requires n <= |run|
    ensures At(s, run, n) == if n == 0 then s else Step(At(s, run, n - 1), run[n - 1])
  {
  }

  /** Does presence of the user at this table begin with this event? */
  predicate Begins(s: VoiceState, e: Event, user: User, id: TableId) {
    && user in Step(s, e).presence && Step(s, e).presence[user] == id
    && !(user in s.presence && s.presence[user] == id)
  }

  lemma PresenceBegins(s: VoiceState, e: Event, user: User, id: TableId)
    requires UniqueIds(s.tables) && Begins(s, e, user, id)
    ensures e.Connected? && e.user == user && Consumes(s, e) && s.grants[user].table == id
    ensures user in s.online && IsMember(s, id, user) && !Muted(s, user, e.wall)
    ensures e.clock <= s.grants[user].expiresAt && Voids(s, e, user)
  {
    if FindUserTable(s.tables, user).Some? {
      UserTableIsFound(s.tables, user);
    }
    if e.Connected? {
      var requested := if e.packet.context != "" then e.packet.context else e.packet.table;
      FindFinds(s.tables, requested);
    }
  }

  /** Presence begins exactly with a connection report that uses up a grant, unless the user is present at that
      table already. */
  lemma BeginsIff(s: VoiceState, e: Event, user: User, id: TableId)
    requires UniqueIds(s.tables)
    ensures Begins(s, e, user, id) <==>
              && e.Connected? && e.user == user && Consumes(s, e) && s.grants[user].table == id
              && !(user in s.presence && s.presence[user] == id)
  {
    hide IsMember, Find, FindUserTable;
    if Begins(s, e, user, id) {
      PresenceBegins(s, e, user, id);
    }
  }

  /** Every time a user's presence at a table begins, it uses up a grant the user was issued for that very table
      at most 120 seconds before; the user is online, a member of the table and not muted; and in between there
      was no other join attempt of the user, no leave, no mute and no removal from a table. */
  lemma PresenceNeedsGrant(s: VoiceState, run: seq<Event>, j: nat, user: User, id: TableId)
    requires Quiet(s) && UniqueIds(s.tables) && j < |run| && Begins(At(s, run, j), run[j], user, id)
    ensures run[j].Connected? && user in At(s, run, j).grants
    ensures var i := IssuedAt(s, run, j, user);
            && i < j && Issues(At(s, run, i), run[i], user) && Granted(At(s, run, i), run[i]) == Some(id)
            && run[j].clock - run[i].clock <= WINDOW
            && (forall k :: i < k < j ==> !Voids(At(s, run, k), run[k], user))
    ensures user in At(s, run, j).online && IsMember(At(s, run, j), id, user)
            && !Muted(At(s, run, j), user, run[j].wall)
  {
    hide Step, Voids, Granted, IsMember, Muted;
    IdsStayUnique(s, run, j);
    PresenceBegins(At(s, run, j), run[j], user, id);
    GrantIsEarned(s, run, j, user);
  }

  /** No grant serves twice: between two beginnings of a user's presence lies the issue of the second grant. */
  lemma GrantsAreSingleUse(s: VoiceState, run: seq<Event>, j1: nat, j2: nat, user: User, id1: TableId, id2: TableId)
    requires Quiet(s) && UniqueIds(s.tables) && j1 < j2 < |run|
    requires Begins(At(s, run, j1), run[j1], user, id1) && Begins(At(s, run, j2), run[j2], user, id2)
    ensures user in At(s, run, j1).grants && user in At(s, run, j2).grants
    ensures IssuedAt(s, run, j1, user) < j1 < IssuedAt(s, run, j2, user) < j2
  {
    hide Step, Voids, Granted, Begins;
    IdsStayUnique(s, run, j1);
    IdsStayUnique(s, run, j2);
    PresenceBegins(At(s, run, j1), run[j1], user, id1);
    PresenceBegins(At(s, run, j2), run[j2], user, id2);
    GrantIsEarned(s, run, j2, user);
  }

  // ---------------------------------------------------------------- tearing down

  /** Whoever is in voice at a table is a member of it, or is about to be taken out. */
  ghost predicate Covered(s: VoiceState) {
    forall u :: u in s.presence ==> IsMember(s, s.presence[u], u) || u in s.clearTasks
  }

  /** Destroying a table with somebody still in its voice and no task to take them out. */
  ghost predicate Strands(s: VoiceState, e: Event) {
    e.DestroyTable? && exists u :: u in s.presence && s.presence[u] == e.id && u !in s.clearTasks
  }

  /** One event keeps everybody covered exactly if it does not destroy a table under somebody who is in its
      voice: removal of a member always schedules the task, destroying a table never does. */
  lemma StepCoversIff(s: VoiceState, e: Event)
    requires UniqueIds(s.tables) && Covered(s)
    ensures Covered(Step(s, e)) <==> !Strands(s, e)
  {
    var s' := Step(s, e);
    if Strands(s, e) {
      var u :| u in s.presence && s.presence[u] == e.id && u !in s.clearTasks;
      StepKeepsMembers(s, e, e.id, u);
      assert u in s'.presence && !IsMember(s', s'.presence[u], u) && u !in s'.clearTasks;
    } else {
      forall u | u in s'.presence ensures IsMember(s', s'.presence[u], u) || u in s'.clearTasks {
        CoveredAfter(s, e, u);
      }
    }
  }

  lemma CoveredAfter(s: VoiceState, e: Event, u: User)
    requires UniqueIds(s.tables) && !Strands(s, e) && u in Step(s, e).presence
    requires u in s.presence ==> IsMember(s, s.presence[u], u) || u in s.clearTasks
    ensures IsMember(Step(s, e), Step(s, e).presence[u], u) || u in Step(s, e).clearTasks
  {
    var s' := Step(s, e);
    var id := s'.presence[u];
    StepKeepsMembers(s, e, id, u);
    if Begins(s, e, u, id) {
      PresenceBegins(s, e, u, id);
    } else {
      TasksStay(s, e, u);
    }
  }

  lemma TasksStay(s: VoiceState, e: Event, u: User)
    requires u in Step(s, e).presence
    ensures u in s.clearTasks ==> u in Step(s, e).clearTasks
    ensures e.RemoveMember? && e.user == u && Find(s.tables, e.id).Some? ==> u in Step(s, e).clearTasks
    ensures u in s.presence ==> e.RemoveMember? ==> Step(s, e).presence[u] == s.presence[u]
  {
  }

  /** On a run that never destroys a table under somebody in its voice, presence without membership means that
      the task to end it is pending. */
  lemma {:induction false} PresenceIsCovered(s: VoiceState, run: seq<Event>, n: nat)
    requires Quiet(s) && UniqueIds(s.tables) && n <= |run|
    requires forall k :: 0 <= k < n ==> !Strands(At(s, run, k), run[k])
    ensures Covered(At(s, run, n))
  {
    hide Step, Covered, Strands;
    if n == 0 {
      QuietIsCovered(s);
    } else {
      PresenceIsCovered(s, run, n - 1);
      IdsStayUnique(s, run, n - 1);
      StepCoversIff(At(s, run, n - 1), run[n - 1]);
    }
  }

  const IN_VOICE := Packet(TABLE_SCOPE, "t", "")
  const DESTROYED_UNDER: seq<Event> :=
    [CreateTable("t", "a"), GoOnline("a"), Join("a", IN_VOICE, true, true, 0.0, 0), Connected("a", IN_VOICE, 1.0, 0),
     DestroyTable("t")]

  /** A run that strands somebody: with nothing at all to begin with, the only member of a table joins its
      voice, and the table is destroyed. */
  lemma DestroyingStrands()
    ensures var s := VoiceState({}, [], map[], map[], map[], multiset{}, multiset{});
            && Quiet(s) && UniqueIds(s.tables) && Strands(At(s, DESTROYED_UNDER, 4), DESTROYED_UNDER[4])
            && (var s' := At(s, DESTROYED_UNDER, 5);
                s'.presence == map["a" := "t"] && s'.tables == [] && s'.clearTasks == multiset{} && !Covered(s'))
  {
    var s := VoiceState({}, [], map[], map[], map[], multiset{}, multiset{});
    var run := DESTROYED_UNDER;
    var s2 := s.(tables := [Table("t", ["a"])], online := {"a"});
    assert Step(Step(s, run[0]), run[1]) == s2;
    var s3 := s2.(grants := map["a" := Grant("t", 120.0)]);
    JoinGrants(s2);
    var s4 := s2.(presence := map["a" := "t"]);
    ConnectingBegins(s3);
    DestroyingEmpties(s4);
    assert At(s, run, 0) == s;
    forall n: nat | n < 5 ensures At(s, run, n + 1) == Step(At(s, run, n), run[n]) {
    }
    hide At, Step;
  }

  lemma JoinGrants(s: VoiceState)
    requires s == VoiceState({"a"}, [Table("t", ["a"])], map[], map[], map[], multiset{}, multiset{})
    ensures Step(s, DESTROYED_UNDER[2]) == s.(grants := map["a" := Grant("t", 120.0)])
  {
    assert Find(s.tables, "t") == Some(s.tables[0]) && FindUserTable(s.tables, "a") == Some(s.tables[0]);
    assert Resolve(s, "a", IN_VOICE) == Some("t");
    hide Find, FindUserTable, AfterConnected, AfterMute, AfterRemove, AfterAdd;
  }

  lemma ConnectingBegins(s: VoiceState)
    requires s
          == VoiceState({"a"}, [Table("t", ["a"])], map[], map["a" := Grant("t", 120.0)], map[], multiset{}, multiset{})
    ensures Step(s, DESTROYED_UNDER[3]) == s.(grants := map[], presence := map["a" := "t"])
  {
    assert Find(s.tables, "t") == Some(s.tables[0]) && FindUserTable(s.tables, "a") == Some(s.tables[0]);
    assert Resolve(s, "a", IN_VOICE) == Some("t");
    hide Find, FindUserTable, AfterJoin, AfterMute, AfterRemove, AfterAdd;
  }

  lemma DestroyingEmpties(s: VoiceState)
    requires s == VoiceState({"a"}, [Table("t", ["a"])], map[], map[], map["a" := "t"], multiset{}, multiset{})
    ensures Step(s, DESTROYED_UNDER[4]) == s.(tables := []) && Strands(s, DESTROYED_UNDER[4])
    ensures !Covered(s.(tables := []))
  {
    assert WithoutTable(s.tables, "t") == [];
    assert "a" in s.(tables := []).presence;
    hide AfterJoin, AfterConnected, AfterMute, AfterRemove, AfterAdd;
  }

  lemma QuietIsCovered(s: VoiceState)
    requires Quiet(s)
    ensures Covered(s)
  {
  }

  // -------------------------------------------------------------------- mutes

  /** Connection reports so far read the clock no later than this. */
  predicate ReadBy(run: seq<Event>, n: nat, wall: int)
    requires n <= |run|
  {
    forall k :: 0 <= k < n && run[k].Connected? ==> run[k].wall <= wall
  }

  /** A muted user who is still in voice has the rest of the mute pending. */
  predicate Leaving(s: VoiceState, u: User, wall: int) {
    u in s.presence && Muted(s, u, wall) ==> u in s.muteTails
  }

  lemma MutedStep(s: VoiceState, e: Event, u: User, wall: int)
    requires Leaving(s, u, wall) && (e.Connected? ==> e.wall <= wall)
    ensures Leaving(Step(s, e), u, wall)
  {
    hide Step, Leaving;
    match e {
      case Join(_, _, _, _, _, _) => MutedJoin(s, e, u, wall);
      case Connected(_, _, _, _) => MutedConnected(s, e, u, wall);
      case Mute(_, _) => MutedMute(s, e, u, wall);
      case RemoveMember(_, _) => MutedMembers(s, e, u, wall);
      case AddMember(_, _) => MutedMembers(s, e, u, wall);
      case _ => MutedOthers(s, e, u, wall);
    }
  }

  lemma MutedJoin(s: VoiceState, e: Event, u: User, wall: int)
    requires Leaving(s, u, wall) && e.Join?
    ensures Leaving(Step(s, e), u, wall)
  {
    hide AfterConnected, AfterMute, AfterRemove, AfterAdd, Granted, PresenceMatches, Find, Cleared;
  }

  lemma MutedConnected(s: VoiceState, e: Event, u: User, wall: int)
    requires Leaving(s, u, wall) && e.Connected? && e.wall <= wall
    ensures Leaving(Step(s, e), u, wall)
  {
    hide AfterJoin, AfterMute, AfterRemove, AfterAdd, Reported, Expired, PresenceMatches, Find, Cleared;
  }

  lemma MutedMute(s: VoiceState, e: Event, u: User, wall: int)
    requires Leaving(s, u, wall) && e.Mute?
    ensures Leaving(Step(s, e), u, wall)
  {
    hide AfterJoin, AfterConnected, AfterRemove, AfterAdd, PresenceMatches, Find;
  }

  lemma MutedMembers(s: VoiceState, e: Event, u: User, wall: int)
    requires Leaving(s, u, wall) && (e.RemoveMember? || e.AddMember?)
    ensures Leaving(Step(s, e), u, wall)
  {
    hide AfterJoin, AfterConnected, AfterMute, PresenceMatches, Find, Cleared, WithTable, Without, WithoutTable;
  }

  lemma MutedOthers(s: VoiceState, e: Event, u: User, wall: int)
    requires Leaving(s, u, wall)
    requires !e.Join? && !e.Connected? && !e.Mute? && !e.RemoveMember? && !e.AddMember?
    ensures Leaving(Step(s, e), u, wall)
  {
    hide AfterJoin, AfterConnected, AfterMute, AfterRemove, AfterAdd, PresenceMatches, Find, WithoutTable;
  }

  /** At any time not before what the clock has shown, a muted user who is still in voice is on the way out:
      the rest of the mute, which ends the presence, is pending. */
  lemma {:induction false} MutedAreLeaving(s: VoiceState, run: seq<Event>, n: nat, u: User, wall: int)
    requires Quiet(s) && n <= |run| && ReadBy(run, n, wall)
    requires u in At(s, run, n).presence && Muted(At(s, run, n), u, wall)
    ensures u in At(s, run, n).muteTails
  {
    var before, e := At(s, run, n - 1), run[n - 1];
    if u in before.presence && Muted(before, u, wall) {
      MutedAreLeaving(s, run, n - 1, u, wall);
    }
    MutedStep(before, e, u, wall);
  }
}
