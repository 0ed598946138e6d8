/**
 Safety of the login handoff over every interleaving.
 */
module HandoffTheorems {
  import opened Wrappers
  import opened HandoffProtocol

  // ------------------------------------------------------------- invariant

  /** Every human name has its own user object, bound to an authenticated socket. */
  ghost predicate UsersBound(s: State) {
    && (forall n :: n in s.users && s.users[n].Human? ==>
          var u := s.users[n].user;
          && u < |s.connection| && s.connection[u] < |s.sockets|
          && s.sockets[s.connection[u]].authenticated)
    && (forall n, m :: n in s.users && m in s.users && s.users[n].Human? && s.users[n] == s.users[m] ==> n == m)
  }

  /** A socket that is authenticated, not replaced and not yet reported closed is the one the user of the
      name it carries is bound to; a socket gets its name and its authentication together. */
  ghost predicate SocketsBound(s: State) {
    forall c :: 0 <= c < |s.sockets| ==>
      && (s.sockets[c].authenticated <==> s.sockets[c].username.Some?)
      && (s.sockets[c].login == Bound ==> s.sockets[c].authenticated)
      && (s.sockets[c].open ==> !s.sockets[c].notified)
      && (s.sockets[c].authenticated && !s.sockets[c].replaced && !s.sockets[c].notified ==>
            BoundSocket(s, s.sockets[c].username.value) == Some(c))
  }

  /** A handoff in progress holds its name's lock, its user is still bound to the old socket, which is
      marked replaced, and no cleanup for the name is waiting. */
  ghost predicate HandoffsSafe(s: State) {
    && (forall c :: 0 <= c < |s.sockets| && InHandoff(s.sockets[c].login) ==>
          var l := s.sockets[c].login;
          && l.name in s.holder && s.holder[l.name] == c
          && l.name in s.users && s.users[l.name] == Human(l.user)
          && l.user < |s.connection| && s.connection[l.user] == l.prior
          && l.prior < |s.sockets| && s.sockets[l.prior].replaced
          && l.name !in s.pending)
    && (forall n :: n in s.holder ==>
          s.holder[n] < |s.sockets| && InHandoff(s.sockets[s.holder[n]].login)
          && s.sockets[s.holder[n]].login.name == n)
  }

  /** The live timers are exactly the registered ones; each waits for a reported socket its
      name's user is still bound to. */
  ghost predicate TimersSafe(s: State) {
    && (forall t :: 0 <= t < |s.timers| && s.timers[t].live ==>
          var Timer(n, c, _) := s.timers[t];
          && n in s.pending && s.pending[n] == t
          && c < |s.sockets| && s.sockets[c].notified && BoundSocket(s, n) == Some(c))
    && (forall n :: n in s.pending ==>
          s.pending[n] < |s.timers| && s.timers[s.pending[n]].live && s.timers[s.pending[n]].name == n)
  }

  ghost predicate Inv(s: State) {
    UsersBound(s) && SocketsBound(s) && HandoffsSafe(s) && TimersSafe(s)
  }

  // ------------------------------------------------------ taking the lock

  lemma CancelKeepsInv(s: State, name: Name)
    requires Inv(s)
    ensures Inv(CancelPending(s, name)) && name !in CancelPending(s, name).pending
  {
    var s' := CancelPending(s, name);
    assert UsersBound(s') && SocketsBound(s') by {
      assert forall n :: BoundSocket(s', n) == BoundSocket(s, n);
    }
    CancelKeepsTimers(s, name);
  }

  lemma CancelKeepsTimers(s: State, name: Name)
    requires TimersSafe(s)
    ensures TimersSafe(CancelPending(s, name)) && name !in CancelPending(s, name).pending
  {
  }

  lemma DropBotKeepsInv(s: State, name: Name)
    requires Inv(s) && name in s.users && s.users[name].Bot?
    ensures Inv(s.(users := s.users - {name}))
  {
    hide UsersBound, SocketsBound, HandoffsSafe, TimersSafe;
    DropBotKeepsUsers(s, name);
    DropBotKeepsSockets(s, name);
    DropBotKeepsHandoffs(s, name);
    DropBotKeepsTimers(s, name);
  }

  lemma DropBotKeepsUsers(s: State, name: Name)
    requires UsersBound(s)
    ensures UsersBound(s.(users := s.users - {name}))
  {
  }

  lemma DropBotKeepsSockets(s: State, name: Name)
    requires SocketsBound(s) && name in s.users && s.users[name].Bot?
    ensures SocketsBound(s.(users := s.users - {name}))
  {
    assert forall n :: BoundSocket(s.(users := s.users - {name}), n) == BoundSocket(s, n);
    hide BoundSocket;
  }

  lemma DropBotKeepsHandoffs(s: State, name: Name)
    requires HandoffsSafe(s) && name in s.users && s.users[name].Bot?
    ensures HandoffsSafe(s.(users := s.users - {name}))
  {
  }

  lemma DropBotKeepsTimers(s: State, name: Name)
    requires TimersSafe(s) && name in s.users && s.users[name].Bot?
    ensures TimersSafe(s.(users := s.users - {name}))
  {
    assert forall n :: BoundSocket(s.(users := s.users - {name}), n) == BoundSocket(s, n);
    hide BoundSocket;
  }

  lemma FreshKeepsInv(s: State, c: nat, name: Name)
    requires Inv(s) && c < |s.sockets| && s.sockets[c].login == Queued(name)
    requires name !in s.users && name !in s.holder && name !in s.pending
    ensures Inv(BindFresh(s, c, name))
  {
    FreshKeepsUsers(s, c, name);
    FreshKeepsSockets(s, c, name);
    FreshKeepsHandoffs(s, c, name);
    FreshKeepsTimers(s, c, name);
  }

  lemma FreshBinds(s: State, c: nat, name: Name)
    requires UsersBound(s) && c < |s.sockets| && name !in s.users
    ensures var s' := BindFresh(s, c, name);
            BoundSocket(s', name) == Some(c) && forall n :: n != name ==> BoundSocket(s', n) == BoundSocket(s, n)
  {
  }

  lemma FreshKeepsUsers(s: State, c: nat, name: Name)
    requires UsersBound(s) && c < |s.sockets| && name !in s.users
    ensures UsersBound(BindFresh(s, c, name))
  {
  }

  lemma FreshKeepsSockets(s: State, c: nat, name: Name)
    requires UsersBound(s) && SocketsBound(s) && c < |s.sockets| && s.sockets[c].login == Queued(name)
    requires name !in s.users
    ensures SocketsBound(BindFresh(s, c, name))
  {
    FreshBinds(s, c, name);
    var s' := BindFresh(s, c, name);
    hide BoundSocket, UsersBound;
    forall d | 0 <= d < |s.sockets| && d != c && s.sockets[d].authenticated && !s.sockets[d].replaced
               && !s.sockets[d].notified
      ensures BoundSocket(s', s.sockets[d].username.value) == Some(d)
    {
      if s.sockets[d].username.value == name {
        UnownedIsUnbound(s, name);
      }
    }
  }

  lemma UnownedIsUnbound(s: State, name: Name)
    requires name !in s.users
    ensures BoundSocket(s, name) == None
  {
  }

  lemma FreshKeepsHandoffs(s: State, c: nat, name: Name)
    requires HandoffsSafe(s) && c < |s.sockets| && s.sockets[c].login == Queued(name)
    requires name !in s.users && name !in s.holder
    ensures HandoffsSafe(BindFresh(s, c, name))
  {
  }

  lemma FreshKeepsTimers(s: State, c: nat, name: Name)
    requires UsersBound(s) && TimersSafe(s) && c < |s.sockets|
    requires name !in s.users && name !in s.pending
    ensures TimersSafe(BindFresh(s, c, name))
  {
    FreshBinds(s, c, name);
    hide BoundSocket, UsersBound;
  }

  lemma HandoffStartKeepsInv(s: State, c: nat, name: Name)
    requires Inv(s) && c < |s.sockets| && s.sockets[c].login == Queued(name)
    requires name in s.users && s.users[name].Human? && name !in s.holder && name !in s.pending
    ensures Inv(StartHandoff(s, c, name, s.users[name].user))
  {
    var u := s.users[name].user;
    var s' := StartHandoff(s, c, name, u);
    assert forall n :: BoundSocket(s', n) == BoundSocket(s, n);
    StartKeepsUsers(s, c, name, u);
    StartKeepsSockets(s, c, name, u);
    StartKeepsHandoffs(s, c, name, u);
    StartKeepsTimers(s, c, name, u);
  }

  lemma StartKeepsUsers(s: State, c: nat, name: Name, u: nat)
    requires UsersBound(s) && c < |s.sockets| && u < |s.connection| && s.connection[u] < |s.sockets|
    ensures UsersBound(StartHandoff(s, c, name, u))
  {
  }

  lemma StartKeepsSockets(s: State, c: nat, name: Name, u: nat)
    requires SocketsBound(s) && c < |s.sockets| && u < |s.connection| && s.connection[u] < |s.sockets|
    requires s.sockets[c].login == Queued(name)
    ensures SocketsBound(StartHandoff(s, c, name, u))
  {
    var s' := StartHandoff(s, c, name, u);
    assert forall n :: BoundSocket(s', n) == BoundSocket(s, n);
    hide BoundSocket;
  }

  lemma StartKeepsHandoffs(s: State, c: nat, name: Name, u: nat)
    requires HandoffsSafe(s) && c < |s.sockets| && u < |s.connection| && s.connection[u] < |s.sockets|
    requires s.sockets[c].login == Queued(name)
    requires name in s.users && s.users[name] == Human(u) && name !in s.holder && name !in s.pending
    ensures HandoffsSafe(StartHandoff(s, c, name, u))
  {
  }

  lemma StartKeepsTimers(s: State, c: nat, name: Name, u: nat)
    requires TimersSafe(s) && c < |s.sockets| && u < |s.connection| && s.connection[u] < |s.sockets|
    ensures TimersSafe(StartHandoff(s, c, name, u))
  {
    var s' := StartHandoff(s, c, name, u);
    assert forall n :: BoundSocket(s', n) == BoundSocket(s, n);
    hide BoundSocket;
  }

  lemma EnterKeepsInv(s: State, c: nat)
    requires Inv(s) && Enabled(s, EnterLock(c))
    ensures Inv(Step(s, EnterLock(c)))
  {
    hide Inv, Step, Enter, CancelPending, BindFresh, StartHandoff, SetLogin;
    var name := s.sockets[c].login.name;
    var s1 := CancelPending(s, name);
    InvParts(s);
    HumansAreBound(s, name);
    EnterIs(s, c);
    CancelKeepsInv(s, name);
    CancelIs(s, name);
    if name !in s.users {
      FreshKeepsInv(s1, c, name);
    } else if s.users[name].Human? {
      HandoffStartKeepsInv(s1, c, name);
    } else if name in s.bots {
      DropBotKeepsInv(s1, name);
      FreshKeepsInv(s1.(users := s1.users - {name}), c, name);
    } else {
      FailKeepsInv(s1, c);
    }
  }

  lemma HumansAreBound(s: State, name: Name)
    requires UsersBound(s)
    ensures name in s.users && s.users[name].Human? ==>
              s.users[name].user < |s.connection| && s.connection[s.users[name].user] < |s.sockets|
  {
  }

  lemma FailKeepsInv(s: State, c: nat)
    requires Inv(s) && c < |s.sockets| && s.sockets[c].login.Queued?
    ensures Inv(SetLogin(s, c, Failed))
  {
    LoginKeepsBindings(s, c, Failed);
    LoginKeepsHandoffs(s, c, Failed);
  }

  // ---------------------------------------------- steps that keep bindings

  /** Moving a login along without binding its socket keeps users, sockets and timers as they were. */
  lemma LoginKeepsBindings(s: State, c: nat, l: Login)
    requires UsersBound(s) && SocketsBound(s) && TimersSafe(s)
    requires c < |s.sockets| && l != Bound
    ensures var s' := SetLogin(s, c, l); UsersBound(s') && SocketsBound(s') && TimersSafe(s')
  {
    hide BoundSocket, UsersBound;
    LoginKeepsUsers(s, c, l);
  }

  lemma LoginKeepsUsers(s: State, c: nat, l: Login)
    requires UsersBound(s) && c < |s.sockets|
    ensures UsersBound(SetLogin(s, c, l)) && forall n :: BoundSocket(SetLogin(s, c, l), n) == BoundSocket(s, n)
  {
  }

  lemma QueueKeepsInv(s: State, c: nat, name: Name)
    requires Inv(s) && c < |s.sockets| && !InHandoff(s.sockets[c].login)
    ensures Inv(SetLogin(s, c, Queued(name)))
  {
    LoginKeepsBindings(s, c, Queued(name));
    LoginKeepsHandoffs(s, c, Queued(name));
  }

  /** A login outside its handoff may move to any state outside it. */
  lemma LoginKeepsHandoffs(s: State, c: nat, l: Login)
    requires HandoffsSafe(s) && c < |s.sockets| && !InHandoff(s.sockets[c].login) && !InHandoff(l)
    ensures HandoffsSafe(SetLogin(s, c, l))
  {
  }

  lemma NotifiedKeepsInv(s: State, c: nat)
    requires Inv(s) && Enabled(s, Notified(c))
    ensures Inv(Step(s, Notified(c)))
  {
    var Notifying(name, u, prior) := s.sockets[c].login;
    LoginKeepsBindings(s, c, Closing(name, u, prior));
    NotifiedKeepsHandoffs(s, c);
  }

  lemma NotifiedKeepsHandoffs(s: State, c: nat)
    requires HandoffsSafe(s) && Enabled(s, Notified(c))
    ensures HandoffsSafe(Step(s, Notified(c)))
  {
  }

  lemma AbortKeepsInv(s: State, c: nat)
    requires Inv(s) && Enabled(s, Abort(c))
    ensures Inv(Step(s, Abort(c)))
  {
    var name := s.sockets[c].login.name;
    LoginKeepsBindings(s, c, Failed);
    UnlockKeepsBindings(SetLogin(s, c, Failed), name);
    AbortKeepsHandoffs(s, c);
    assert Step(s, Abort(c)) == SetLogin(s, c, Failed).(holder := s.holder - {name});
    hide UsersBound, SocketsBound, TimersSafe, HandoffsSafe;
  }

  lemma UnlockKeepsBindings(s: State, name: Name)
    requires UsersBound(s) && SocketsBound(s) && TimersSafe(s)
    ensures var s' := s.(holder := s.holder - {name}); UsersBound(s') && SocketsBound(s') && TimersSafe(s')
  {
    var s' := s.(holder := s.holder - {name});
    assert forall n :: BoundSocket(s', n) == BoundSocket(s, n);
  }

  lemma AbortKeepsHandoffs(s: State, c: nat)
    requires HandoffsSafe(s) && Enabled(s, Abort(c))
    ensures HandoffsSafe(Step(s, Abort(c)))
  {
  }

  /** Nothing but the open and reported flags of sockets differs, and no open socket is reported;
      sockets that have not authorized may have been added. */
  ghost predicate OnlyFlagsDiffer(s: State, s': State) {
    && s' == s.(sockets := s'.sockets)
    && |s.sockets| <= |s'.sockets|
    && (forall i :: 0 <= i < |s'.sockets| ==>
          && (s'.sockets[i].open ==> !s'.sockets[i].notified)
          && (if i < |s.sockets| then
                && s'.sockets[i] == s.sockets[i].(open := s'.sockets[i].open, notified := s'.sockets[i].notified)
                && (s.sockets[i].notified ==> s'.sockets[i].notified)
              else s'.sockets[i].login == Idle && !s'.sockets[i].authenticated && s'.sockets[i].username == None))
  }

  lemma FlagsKeepBindings(s: State, s': State)
    requires UsersBound(s) && SocketsBound(s) && OnlyFlagsDiffer(s, s')
    ensures UsersBound(s') && SocketsBound(s')
  {
    assert UsersBound(s');
    assert forall n :: BoundSocket(s', n) == BoundSocket(s, n);
    hide BoundSocket, UsersBound;
    assert SocketsBound(s');
  }

  lemma FlagsKeepHandoffs(s: State, s': State)
    requires HandoffsSafe(s) && OnlyFlagsDiffer(s, s')
    ensures HandoffsSafe(s')
  {
  }

  lemma FlagsKeepTimers(s: State, s': State)
    requires TimersSafe(s) && OnlyFlagsDiffer(s, s')
    ensures TimersSafe(s')
  {
    assert forall n :: BoundSocket(s', n) == BoundSocket(s, n);
    hide BoundSocket;
  }

  lemma FlagsKeepInv(s: State, s': State)
    requires Inv(s) && OnlyFlagsDiffer(s, s')
    ensures Inv(s')
  {
    FlagsKeepBindings(s, s');
    FlagsKeepHandoffs(s, s');
    FlagsKeepTimers(s, s');
    hide UsersBound, SocketsBound, HandoffsSafe, TimersSafe;
  }

  lemma ConnectKeepsInv(s: State)
    requires Inv(s)
    ensures Inv(Step(s, Connect))
  {
    FlagsKeepInv(s, Step(s, Connect)) by {
      hide UsersBound, HandoffsSafe, TimersSafe;
    }
    hide UsersBound, SocketsBound, HandoffsSafe, TimersSafe;
  }

  lemma SocketClosesKeepsInv(s: State, c: nat)
    requires Inv(s) && c < |s.sockets|
    ensures Inv(s.(sockets := s.sockets[c := s.sockets[c].(open := false)]))
  {
    hide UsersBound, HandoffsSafe, TimersSafe;
    FlagsKeepInv(s, s.(sockets := s.sockets[c := s.sockets[c].(open := false)]));
  }

  lemma NoticeKeepsInv(s: State, c: nat)
    requires Inv(s) && c < |s.sockets| && !s.sockets[c].open
    ensures Inv(s.(sockets := s.sockets[c := s.sockets[c].(notified := true)]))
  {
    hide UsersBound, HandoffsSafe, TimersSafe;
    FlagsKeepInv(s, s.(sockets := s.sockets[c := s.sockets[c].(notified := true)]));
  }

  /** Bots come and go on free names only, so no human binding changes. */
  lemma BotOnlineKeepsInv(s: State, name: Name)
    requires Inv(s) && name !in s.users
    ensures Inv(s.(users := s.users[name := Bot]))
  {
    var s' := s.(users := s.users[name := Bot]);
    assert forall n :: BoundSocket(s', n) == BoundSocket(s, n);
    BotOnlineKeepsUsers(s, name);
    BotOnlineKeepsHandoffs(s, name);
    hide BoundSocket, UsersBound, HandoffsSafe;
    assert SocketsBound(s') && TimersSafe(s');
  }

  lemma BotOnlineKeepsUsers(s: State, name: Name)
    requires UsersBound(s) && name !in s.users
    ensures UsersBound(s.(users := s.users[name := Bot]))
  {
  }

  lemma BotOnlineKeepsHandoffs(s: State, name: Name)
    requires HandoffsSafe(s) && name !in s.users
    ensures HandoffsSafe(s.(users := s.users[name := Bot]))
  {
  }

  lemma BotsChangeKeepsInv(s: State, bots: set<Name>)
    requires Inv(s)
    ensures Inv(s.(bots := bots))
  {
    var s' := s.(bots := bots);
    assert forall n :: BoundSocket(s', n) == BoundSocket(s, n);
    assert UsersBound(s') && HandoffsSafe(s') by {
      hide SocketsBound, TimersSafe;
    }
    assert SocketsBound(s') && TimersSafe(s') by {
      hide BoundSocket, UsersBound, HandoffsSafe;
    }
  }

  // ------------------------------------------------- taking the user over

  /** Binding the handed-over user to the new socket. */
  lemma TakeOverKeepsInv(s: State, c: nat)
    requires Inv(s) && c < |s.sockets| && s.sockets[c].login.Closing?
    ensures var Closing(name, u, prior) := s.sockets[c].login; Inv(Rebind(s, c, name, u, prior, false))
  {
    var Closing(name, u, prior) := s.sockets[c].login;
    var s' := Rebind(s, c, name, u, prior, false);
    TakeOverBinds(s, c);
    TakeOverKeepsUsers(s, c);
    assert SocketsBound(s') by {
      TakeOverKeepsSockets(s, c);
    }
    assert HandoffsSafe(s') by {
      TakeOverKeepsHandoffs(s, c);
    }
    assert TimersSafe(s') by {
      TakeOverKeepsTimers(s, c);
    }
  }

  lemma TakeOverBinds(s: State, c: nat)
    requires UsersBound(s) && HandoffsSafe(s) && c < |s.sockets| && s.sockets[c].login.Closing?
    ensures var Closing(name, u, prior) := s.sockets[c].login;
            var s' := Rebind(s, c, name, u, prior, false);
            && prior < |s.sockets| && s.sockets[prior].replaced && name !in s.pending
            && BoundSocket(s, name) == Some(prior)
            && BoundSocket(s', name) == Some(c)
            && s'.sockets
               == s.sockets[c := s.sockets[c].(username := Some(name), authenticated := true, login := Bound)]
            && s'.holder == s.holder - {name} && s'.timers == s.timers && s'.pending == s.pending
            && forall n :: n != name ==> BoundSocket(s', n) == BoundSocket(s, n)
  {
  }

  lemma TakeOverKeepsUsers(s: State, c: nat)
    requires UsersBound(s) && HandoffsSafe(s)
    requires c < |s.sockets| && s.sockets[c].login.Closing?
    ensures var Closing(name, u, prior) := s.sockets[c].login; UsersBound(Rebind(s, c, name, u, prior, false))
  {
  }

  lemma TakeOverKeepsSockets(s: State, c: nat)
    requires UsersBound(s) && SocketsBound(s) && HandoffsSafe(s)
    requires c < |s.sockets| && s.sockets[c].login.Closing?
    ensures var Closing(name, u, prior) := s.sockets[c].login; SocketsBound(Rebind(s, c, name, u, prior, false))
  {
    TakeOverBinds(s, c);
    hide BoundSocket, UsersBound, HandoffsSafe, Rebind;
  }

  lemma TakeOverKeepsHandoffs(s: State, c: nat)
    requires HandoffsSafe(s) && c < |s.sockets| && s.sockets[c].login.Closing?
    requires forall n, m :: n in s.users && m in s.users && s.users[n].Human? && s.users[n] == s.users[m] ==> n == m
    ensures var Closing(name, u, prior) := s.sockets[c].login; HandoffsSafe(Rebind(s, c, name, u, prior, false))
  {
  }

  lemma TakeOverKeepsTimers(s: State, c: nat)
    requires Inv(s) && c < |s.sockets| && s.sockets[c].login.Closing?
    ensures var Closing(name, u, prior) := s.sockets[c].login; TimersSafe(Rebind(s, c, name, u, prior, false))
  {
    TakeOverBinds(s, c);
    var Closing(name, u, prior) := s.sockets[c].login;
    var s' := Rebind(s, c, name, u, prior, false);
    hide UsersBound, SocketsBound, BoundSocket, HandoffsSafe, Rebind;
    TimersSurvive(s, s', c, name);
  }

  /** Cleanups for other names are untouched by whatever happens to one socket and one name. */
  lemma TimersSurvive(s: State, s': State, c: nat, name: Name)
    requires TimersSafe(s) && name !in s.pending && c < |s.sockets| == |s'.sockets|
    requires s'.timers == s.timers && s'.pending == s.pending
    requires forall i :: 0 <= i < |s.sockets| && i != c ==> s'.sockets[i] == s.sockets[i]
    requires s'.sockets[c].notified == s.sockets[c].notified
    requires forall n :: n != name ==> BoundSocket(s', n) == BoundSocket(s, n)
    ensures TimersSafe(s')
  {
    hide BoundSocket;
  }

  lemma OldClosedKeepsInv(s: State, c: nat, closed: bool)
    requires Inv(s) && Enabled(s, OldClosed(c, closed))
    ensures Inv(Step(s, OldClosed(c, closed)))
  {
    var Closing(name, u, prior) := s.sockets[c].login;
    TakeOverBinds(s, c);
    TakeOverKeepsInv(s, c);
    var s1 := Rebind(s, c, name, u, prior, false);
    SocketClosesKeepsInv(s1, prior);
    CloseCommutes(s, c);
    hide Inv, Rebind;
  }

  /** Closing the old socket before or after the takeover makes no difference. */
  lemma CloseCommutes(s: State, c: nat)
    requires UsersBound(s) && HandoffsSafe(s) && c < |s.sockets| && s.sockets[c].login.Closing?
    ensures var Closing(name, u, prior) := s.sockets[c].login;
            var s1 := Rebind(s, c, name, u, prior, false);
            && prior < |s1.sockets|
            && Rebind(s, c, name, u, prior, true)
               == s1.(sockets := s1.sockets[prior := s1.sockets[prior].(open := false)])
  {
  }

  // --------------------------------------------------- closing and cleanup

  lemma DisconnectKeepsInv(s: State, c: nat)
    requires Inv(s) && Enabled(s, DisconnectCallback(c))
    ensures Inv(Step(s, DisconnectCallback(c)))
  {
    hide Inv, OnDisconnect;
    var s1 := s.(sockets := s.sockets[c := s.sockets[c].(notified := true)]);
    NoticeKeepsInv(s, c);
    var socket := s.sockets[c];
    if !socket.replaced && socket.username.Some? {
      var name := socket.username.value;
      CallbackSetsTimer(s, c, name);
      assert BoundSocket(s1, name) == BoundSocket(s, name);
      TimerKeepsInv(s1, c, name);
    } else {
      CallbackIgnores(s, c);
    }
  }

  lemma CallbackIgnores(s: State, c: nat)
    requires c < |s.sockets| && (s.sockets[c].replaced || s.sockets[c].username.None?)
    ensures OnDisconnect(s, c) == s.(sockets := s.sockets[c := s.sockets[c].(notified := true)])
  {
  }

  /** The callback of an unreplaced named socket always sets up a cleanup: its user is still there and
      still bound to it. */
  lemma CallbackSetsTimer(s: State, c: nat, name: Name)
    requires Inv(s) && Enabled(s, DisconnectCallback(c))
    requires s.sockets[c].username == Some(name) && !s.sockets[c].replaced
    ensures BoundSocket(s, name) == Some(c) && name !in s.pending
    ensures OnDisconnect(s, c) == AddTimer(s.(sockets := s.sockets[c := s.sockets[c].(notified := true)]), c, name)
  {
    UnreportedIsBound(s, c, name);
    hide Inv;
  }

  /** An unreplaced, unreported socket is its user's, and no cleanup waits for that user yet. */
  lemma UnreportedIsBound(s: State, c: nat, name: Name)
    requires Inv(s) && c < |s.sockets| && s.sockets[c].username == Some(name)
    requires !s.sockets[c].replaced && !s.sockets[c].notified
    ensures BoundSocket(s, name) == Some(c) && name !in s.pending
  {
    hide UsersBound, HandoffsSafe, BoundSocket;
  }

  /** A cleanup may be set up for a reported socket whose name has none waiting. */
  lemma TimerKeepsInv(s: State, c: nat, name: Name)
    requires Inv(s) && c < |s.sockets| && BoundSocket(s, name) == Some(c)
    requires s.sockets[c].notified && !s.sockets[c].replaced
    requires name !in s.pending
    ensures Inv(AddTimer(s, c, name))
  {
    var s' := AddTimer(s, c, name);
    assert forall n :: BoundSocket(s', n) == BoundSocket(s, n);
    AddTimerKeepsTimers(s, c, name);
    AddTimerKeepsHandoffs(s, c, name);
    assert UsersBound(s');
    hide BoundSocket, UsersBound, TimersSafe, HandoffsSafe;
  }

  lemma AddTimerKeepsTimers(s: State, c: nat, name: Name)
    requires TimersSafe(s) && c < |s.sockets| && BoundSocket(s, name) == Some(c)
    requires s.sockets[c].notified && name !in s.pending
    ensures TimersSafe(AddTimer(s, c, name))
  {
    var s' := AddTimer(s, c, name);
    assert forall n :: BoundSocket(s', n) == BoundSocket(s, n);
    hide BoundSocket;
  }

  lemma AddTimerKeepsHandoffs(s: State, c: nat, name: Name)
    requires HandoffsSafe(s) && c < |s.sockets| && BoundSocket(s, name) == Some(c) && !s.sockets[c].replaced
    ensures HandoffsSafe(AddTimer(s, c, name))
  {
  }

  /** Removing the user of a reported socket, when nobody is taking it over and no cleanup waits. */
  lemma EvictKeepsInv(s: State, c: nat, name: Name)
    requires Inv(s) && c < |s.sockets| && BoundSocket(s, name) == Some(c) && s.sockets[c].notified
    requires name !in s.pending && name !in s.holder
    ensures Inv(s.(users := s.users - {name}))
  {
    var s' := s.(users := s.users - {name});
    assert forall n :: n != name ==> BoundSocket(s', n) == BoundSocket(s, n);
    assert UsersBound(s');
    EvictKeepsHandoffs(s, name);
    hide BoundSocket, UsersBound, HandoffsSafe;
    assert SocketsBound(s');
    assert TimersSafe(s');
  }

  lemma EvictKeepsHandoffs(s: State, name: Name)
    requires HandoffsSafe(s) && name !in s.holder
    ensures HandoffsSafe(s.(users := s.users - {name}))
  {
  }

  /** A live cleanup always finds its user still bound to the socket it waited for, and nobody in the
      middle of taking the name over. */
  lemma LiveTimerIsCurrent(s: State, t: nat)
    requires Inv(s) && t < |s.timers| && s.timers[t].live
    ensures var Timer(n, c, _) := s.timers[t];
            && n in s.pending && s.pending[n] == t && n !in s.holder
            && c < |s.sockets| && s.sockets[c].notified && !s.sockets[c].open
            && BoundSocket(s, n) == Some(c)
            && Cleanup(s, t) == CancelPending(s, n).(users := s.users - {n})
  {
    hide UsersBound;
  }

  lemma TimerFiresKeepsInv(s: State, t: nat)
    requires Inv(s) && Enabled(s, TimerFires(t))
    ensures Inv(Step(s, TimerFires(t)))
  {
    var Timer(n, c, _) := s.timers[t];
    LiveTimerIsCurrent(s, t);
    CancelKeepsInv(s, n);
    var s1 := CancelPending(s, n);
    assert BoundSocket(s1, n) == BoundSocket(s, n);
    hide Inv;
    EvictKeepsInv(s1, c, n);
  }

  // ---------------------------------------------------------- every event

  lemma StepKeepsInv(s: State, e: Event)
    requires Inv(s) && Enabled(s, e)
    ensures Inv(Step(s, e))
  {
    hide Inv;
    match e
    case Connect => ConnectKeepsInv(s);
    case Authorize(c, name) => QueueKeepsInv(s, c, name);
    case Reauthorize(c, name) => QueueKeepsInv(s, c, name);
    case EnterLock(c) => EnterKeepsInv(s, c);
    case Notified(c) => NotifiedKeepsInv(s, c);
    case OldClosed(c, closed) => OldClosedKeepsInv(s, c, closed);
    case Abort(c) => AbortKeepsInv(s, c);
    case SocketCloses(c) => SocketClosesKeepsInv(s, c);
    case DisconnectCallback(c) => DisconnectKeepsInv(s, c);
    case TimerFires(t) => TimerFiresKeepsInv(s, t);
    case BotOnline(n) => BotOnlineKeepsInv(s, n);
    case BotOffline(n) => DropBotKeepsInv(s, n);
    case BotKnown(n) => BotsChangeKeepsInv(s, s.bots + {n});
    case BotForgotten(n) => BotsChangeKeepsInv(s, s.bots - {n});
  }

  lemma {:induction false} RunKeepsInv(s: State, es: seq<Event>)
    requires Inv(s) && ValidRun(s, es)
    ensures Inv(Run(s, es))
    decreases |es|
  {
    hide Inv, Step, Enabled;
    if es == [] {
    } else {
      StepKeepsInv(s, es[0]);
      RunKeepsInv(Step(s, es[0]), es[1..]);
    }
  }

  lemma StartIsSafe()
    ensures Inv(START)
  {
  }

  lemma InvParts(s: State)
    requires Inv(s)
    ensures UsersBound(s) && SocketsBound(s) && HandoffsSafe(s) && TimersSafe(s)
  {
  }

  /** Cancelling a debounce touches nothing but the timer and its registration. */
  lemma CancelIs(s: State, name: Name)
    ensures var s1 := CancelPending(s, name);
            && s1.sockets == s.sockets && s1.connection == s.connection && s1.users == s.users
            && s1.bots == s.bots && s1.holder == s.holder && |s1.timers| == |s.timers|
  {
  }

  /** What taking the lock comes to, by who holds the name. */
  lemma EnterIs(s: State, c: nat)
    requires Enabled(s, EnterLock(c))
    ensures var name := s.sockets[c].login.name;
            var s1 := CancelPending(s, name);
            && s1.sockets == s.sockets && s1.connection == s.connection && s1.users == s.users
            && (name !in s.users ==> Step(s, EnterLock(c)) == BindFresh(s1, c, name))
            && (name in s.users && s.users[name].Bot? ==>
                  Step(s, EnterLock(c)) == if name in s.bots then BindFresh(s1.(users := s1.users - {name}), c, name)
                                           else SetLogin(s1, c, Failed))
            && (name in s.users && s.users[name].Human? && s.users[name].user < |s.connection|
                && s.connection[s.users[name].user] < |s.sockets| ==>
                  Step(s, EnterLock(c)) == StartHandoff(s1, c, name, s.users[name].user))
  {
    hide CancelPending, BindFresh, StartHandoff, SetLogin;
    CancelIs(s, s.sockets[c].login.name);
  }

  // --------------------------------------------------------- main results

  /** In every reachable state a username has at most one open socket whose packets are acted on, and
      that socket is the one its user is bound to. */
  lemma AtMostOneLiveSession(es: seq<Event>, c: nat, d: nat)
    requires ValidRun(START, es)
    requires var s := Run(START, es);
             Accepts(s, c) && s.sockets[c].open && Accepts(s, d) && s.sockets[d].open
             && s.sockets[c].username == s.sockets[d].username
    ensures c == d
    ensures var s := Run(START, es);
            s.sockets[c].username.Some? && BoundSocket(s, s.sockets[c].username.value) == Some(c)
  {
    StartIsSafe();
    RunKeepsInv(START, es);
    hide UsersBound, HandoffsSafe, TimersSafe, BoundSocket, Run, ValidRun;
  }

  /** Whenever a username loses its user, it is the cleanup of the very socket the user is still bound
      to, and that socket is closed: no stale disconnect ever evicts a re-attached user. */
  lemma OnlyOwnClosedSocketEvicts(s: State, e: Event, name: Name)
    requires Inv(s) && Enabled(s, e)
    requires BoundSocket(s, name).Some? && BoundSocket(Step(s, e), name) == None
    ensures e.TimerFires? && s.timers[e.timer].name == name
    ensures BoundSocket(s, name) == Some(s.timers[e.timer].socket) && !s.sockets[s.timers[e.timer].socket].open
  {
    hide Inv, Enter, Rebind;
    match e {
      case TimerFires(t) =>
        LiveTimerIsCurrent(s, t);
      case EnterLock(c) => EnterKeepsOthersBound(s, c, name);
      case OldClosed(c, closed) => RebindKeepsEveryoneBound(s, c, closed, name);
      case DisconnectCallback(c) =>
      case _ =>
    }
  }

  lemma EnterKeepsOthersBound(s: State, c: nat, name: Name)
    requires Inv(s) && Enabled(s, EnterLock(c)) && BoundSocket(s, name).Some?
    ensures BoundSocket(Step(s, EnterLock(c)), name) == BoundSocket(s, name)
  {
    hide Inv, Step, Enter, CancelPending, SocketsBound, HandoffsSafe, TimersSafe;
    InvParts(s);
    EnterIs(s, c);
  }

  lemma RebindKeepsEveryoneBound(s: State, c: nat, closed: bool, name: Name)
    requires Inv(s) && Enabled(s, OldClosed(c, closed)) && BoundSocket(s, name).Some?
    ensures BoundSocket(Step(s, OldClosed(c, closed)), name)
         == if name == s.sockets[c].login.name then Some(c) else BoundSocket(s, name)
  {
    hide SocketsBound, TimersSafe;
  }

  /** A user attached to an open socket stays attached to it, whatever old timers, closes, bots and
      other logins do, until that socket closes or a login takes its session. */
  lemma {:induction false} AttachedUserStays(s: State, es: seq<Event>, c: nat, name: Name)
    requires Inv(s) && ValidRun(s, es) && SocketCloses(c) !in es && !HandedOff(s, es, c)
    requires BoundSocket(s, name) == Some(c) && Accepts(s, c) && s.sockets[c].open
    ensures var s' := Run(s, es);
            BoundSocket(s', name) == Some(c) && Accepts(s', c) && s'.sockets[c].open
    decreases |es|
  {
    hide Inv, Step, Enabled, BoundSocket;
    if es == [] {
    } else {
      StepKeepsInv(s, es[0]);
      AttachedStep(s, es[0], c, name);
      AttachedUserStays(Step(s, es[0]), es[1..], c, name);
    }
  }

  lemma AttachedStep(s: State, e: Event, c: nat, name: Name)
    requires Inv(s) && Enabled(s, e) && e != SocketCloses(c) && !TakesFrom(s, e, c)
    requires BoundSocket(s, name) == Some(c) && Accepts(s, c) && s.sockets[c].open
    ensures var s' := Step(s, e);
            BoundSocket(s', name) == Some(c) && Accepts(s', c) && s'.sockets[c].open
  {
    hide Inv, Enter, Rebind, Cleanup, OnDisconnect;
    match e {
      case EnterLock(d) => AttachedThroughEnter(s, d, c, name);
      case OldClosed(d, closed) => AttachedThroughRebind(s, d, closed, c, name);
      case TimerFires(t) => AttachedThroughCleanup(s, t, c, name);
      case DisconnectCallback(d) => CallbackElsewhere(s, d, c, name);
      case _ =>
    }
  }

  lemma CallbackElsewhere(s: State, d: nat, c: nat, name: Name)
    requires d < |s.sockets| && c != d
    ensures var s' := OnDisconnect(s, d);
            && BoundSocket(s', name) == BoundSocket(s, name)
            && |s'.sockets| == |s.sockets| && (c < |s.sockets| ==> s'.sockets[c] == s.sockets[c])
  {
  }

  lemma AttachedThroughEnter(s: State, d: nat, c: nat, name: Name)
    requires Inv(s) && Enabled(s, EnterLock(d)) && !TakesFrom(s, EnterLock(d), c)
    requires BoundSocket(s, name) == Some(c) && Accepts(s, c) && s.sockets[c].open
    ensures var s' := Step(s, EnterLock(d));
            BoundSocket(s', name) == Some(c) && Accepts(s', c) && s'.sockets[c].open
  {
    EnterKeepsOthersBound(s, d, name);
    EnterSpares(s, d, c);
    hide Inv, BoundSocket, Enter;
  }

  /** Taking the lock marks the socket its name was bound to as replaced, and no other. */
  lemma EnterSpares(s: State, d: nat, c: nat)
    requires UsersBound(s) && Enabled(s, EnterLock(d)) && c < |s.sockets|
    ensures var s' := Enter(s, d, s.sockets[d].login.name);
            && |s'.sockets| == |s.sockets|
            && (s'.sockets[c].replaced <==> s.sockets[c].replaced || TakesFrom(s, EnterLock(d), c))
            && s'.sockets[c].open == s.sockets[c].open
            && (s.sockets[c].authenticated ==> s'.sockets[c].authenticated)
  {
    hide Enter, CancelPending, UsersBound;
    HumansAreBound(s, s.sockets[d].login.name);
    EnterIs(s, d);
  }

  lemma AttachedThroughRebind(s: State, d: nat, closed: bool, c: nat, name: Name)
    requires Inv(s) && Enabled(s, OldClosed(d, closed))
    requires BoundSocket(s, name) == Some(c) && Accepts(s, c) && s.sockets[c].open
    ensures var s' := Step(s, OldClosed(d, closed));
            BoundSocket(s', name) == Some(c) && Accepts(s', c) && s'.sockets[c].open
  {
    hide Inv, UsersBound, SocketsBound, HandoffsSafe, TimersSafe, BoundSocket;
    InvParts(s);
    RebindKeepsEveryoneBound(s, d, closed, name);
    TakeOverBinds(s, d);
  }

  lemma AttachedThroughCleanup(s: State, t: nat, c: nat, name: Name)
    requires Inv(s) && Enabled(s, TimerFires(t))
    requires BoundSocket(s, name) == Some(c) && Accepts(s, c) && s.sockets[c].open
    ensures var s' := Step(s, TimerFires(t));
            BoundSocket(s', name) == Some(c) && Accepts(s', c) && s'.sockets[c].open
  {
    LiveTimerIsCurrent(s, t);
    assert s.timers[t].name != name;
    hide Inv;
  }

  // ------------------------------------------------------ nobody is stranded

  /** The websocket server runs a socket's messages and, after the last of them, its disconnect callback
      in one task: no callback while a login is in progress, no login after the callback. */
  predicate Orderly(s: State, e: Event) {
    match e
    case DisconnectCallback(c) =>
      c < |s.sockets| && !InHandoff(s.sockets[c].login) && !s.sockets[c].login.Queued?
    case Authorize(c, _) => c < |s.sockets| && !s.sockets[c].notified
    case Reauthorize(c, _) => c < |s.sockets| && !s.sockets[c].notified
    case _ => true
  }

  /** A login in progress has an unreported socket. */
  ghost predicate LoginsUnreported(s: State) {
    forall c :: 0 <= c < |s.sockets| && (InHandoff(s.sockets[c].login) || s.sockets[c].login.Queued?) ==>
      !s.sockets[c].notified
  }

  /** If the name's user is left on a reported socket that was not replaced and carries the name, its cleanup
      is waiting. */
  ghost predicate TendedFor(s: State, n: Name) {
    match BoundSocket(s, n)
    case None => true
    case Some(c) =>
      c < |s.sockets| && s.sockets[c].notified && !s.sockets[c].replaced && s.sockets[c].username == Some(n) ==>
        n in s.pending && s.pending[n] < |s.timers| && s.timers[s.pending[n]].socket == c
  }

  ghost predicate Tended(s: State) {
    LoginsUnreported(s) && forall n :: TendedFor(s, n)
  }

  lemma LoginsStayUnreported(s: State, e: Event)
    requires LoginsUnreported(s) && Enabled(s, e) && Orderly(s, e)
    ensures LoginsUnreported(Step(s, e))
  {
    if e.EnterLock? {
      var s' := Step(s, e);
      forall c: nat | c < |s'.sockets| && (InHandoff(s'.sockets[c].login) || s'.sockets[c].login.Queued?)
        ensures !s'.sockets[c].notified
      {
        EnterKeepsReport(s, e.socket, c);
      }
      hide Enter;
    }
  }

  lemma EnterKeepsReport(s: State, d: nat, c: nat)
    requires Enabled(s, EnterLock(d))
    ensures var s' := Enter(s, d, s.sockets[d].login.name);
            && |s'.sockets| == |s.sockets|
            && (c < |s.sockets| ==> s'.sockets[c].notified == s.sockets[c].notified
                                    && (c != d ==> s'.sockets[c].login == s.sockets[c].login))
  {
    var name := s.sockets[d].login.name;
    assert CancelPending(s, name).sockets == s.sockets;
    hide CancelPending;
  }

  lemma StepKeepsTendedFor(s: State, e: Event, n: Name)
    requires Inv(s) && LoginsUnreported(s) && TendedFor(s, n) && Enabled(s, e) && Orderly(s, e)
    ensures TendedFor(Step(s, e), n)
  {
    hide Inv, LoginsUnreported, Enter, Rebind, Cleanup, OnDisconnect;
    InvParts(s);
    match e {
      case EnterLock(c) => EnterKeepsTended(s, c, n);
      case OldClosed(c, closed) => RebindKeepsTended(s, c, closed, n);
      case DisconnectCallback(c) => CallbackKeepsTended(s, c, n);
      case TimerFires(t) => CleanupKeepsTended(s, t, n);
      case _ => OthersKeepTended(s, e, n);
    }
  }

  lemma OthersKeepTended(s: State, e: Event, n: Name)
    requires UsersBound(s) && TendedFor(s, n) && Enabled(s, e) && Orderly(s, e)
    requires !e.EnterLock? && !e.OldClosed? && !e.DisconnectCallback? && !e.TimerFires?
    ensures TendedFor(Step(s, e), n)
  {
    hide Enter, Rebind, Cleanup, OnDisconnect, UsersBound;
  }

  lemma CleanupKeepsTended(s: State, t: nat, n: Name)
    requires Inv(s) && TendedFor(s, n) && Enabled(s, TimerFires(t))
    ensures TendedFor(Step(s, TimerFires(t)), n)
  {
    hide Inv;
    LiveTimerIsCurrent(s, t);
  }

  lemma EnterKeepsTended(s: State, c: nat, n: Name)
    requires UsersBound(s) && LoginsUnreported(s) && TendedFor(s, n) && Enabled(s, EnterLock(c))
    ensures TendedFor(Step(s, EnterLock(c)), n)
  {
    hide Step, Enter, CancelPending, BindFresh, StartHandoff, UsersBound, LoginsUnreported, TendedFor;
    var name := s.sockets[c].login.name;
    var s1 := CancelPending(s, name);
    EnterIs(s, c);
    UnreportedLogin(s, c);
    OthersStayTended(s, name, n);
    if name !in s.users {
      UsersBoundWithout(s, s1, name);
      FreshKeepsTended(s1, c, name, n);
    } else if s.users[name].Human? {
      HumansAreBound(s, name);
      StartKeepsTended(s1, c, name, s.users[name].user, n);
    } else if name in s.bots {
      UsersBoundWithout(s, s1.(users := s1.users - {name}), name);
      FreshKeepsTended(s1.(users := s1.users - {name}), c, name, n);
    } else {
      FailKeepsTended(s1, c, name, n);
    }
  }

  lemma UnreportedLogin(s: State, c: nat)
    requires LoginsUnreported(s) && c < |s.sockets| && s.sockets[c].login.Queued?
    ensures !s.sockets[c].notified
  {
  }

  /** Cancelling one name's debounce, and dropping the name itself, leaves the others tended. */
  lemma OthersStayTended(s: State, name: Name, n: Name)
    requires TendedFor(s, n)
    ensures var s1 := CancelPending(s, name);
            n != name ==> TendedFor(s1, n) && TendedFor(s1.(users := s1.users - {name}), n)
  {
  }

  lemma UsersBoundWithout(s: State, s1: State, name: Name)
    requires UsersBound(s) && s1.sockets == s.sockets && s1.connection == s.connection
    requires s1.users == s.users || s1.users == s.users - {name}
    ensures UsersBound(s1)
  {
  }

  lemma FailKeepsTended(s: State, c: nat, name: Name, n: Name)
    requires c < |s.sockets| && name in s.users && s.users[name].Bot? && (n != name ==> TendedFor(s, n))
    ensures TendedFor(SetLogin(s, c, Failed), n)
  {
  }

  lemma FreshKeepsTended(s: State, c: nat, name: Name, n: Name)
    requires UsersBound(s) && c < |s.sockets| && !s.sockets[c].notified && name !in s.users
    requires n != name ==> TendedFor(s, n)
    ensures TendedFor(BindFresh(s, c, name), n)
  {
    FreshBinds(s, c, name);
    hide UsersBound, BoundSocket;
  }

  lemma StartKeepsTended(s: State, c: nat, name: Name, u: nat, n: Name)
    requires c < |s.sockets| && u < |s.connection| && s.connection[u] < |s.sockets|
    requires name in s.users && s.users[name] == Human(u)
    requires n != name ==> TendedFor(s, n)
    ensures TendedFor(StartHandoff(s, c, name, u), n)
  {
    assert BoundSocket(StartHandoff(s, c, name, u), n) == BoundSocket(s, n);
  }

  lemma RebindKeepsTended(s: State, c: nat, closed: bool, n: Name)
    requires Inv(s) && LoginsUnreported(s) && TendedFor(s, n) && Enabled(s, OldClosed(c, closed))
    ensures TendedFor(Step(s, OldClosed(c, closed)), n)
  {
    TakeOverBinds(s, c);
    CloseCommutes(s, c);
    assert !s.sockets[c].notified;
    var Closing(name, u, prior) := s.sockets[c].login;
    var s1, s2 := Rebind(s, c, name, u, prior, false), Rebind(s, c, name, u, prior, closed);
    assert BoundSocket(s2, n) == BoundSocket(s1, n);
    hide Inv, LoginsUnreported, Rebind, BoundSocket;
  }

  lemma CallbackKeepsTended(s: State, c: nat, n: Name)
    requires Inv(s) && TendedFor(s, n) && Enabled(s, DisconnectCallback(c))
    ensures TendedFor(Step(s, DisconnectCallback(c)), n)
  {
    hide Inv, OnDisconnect, SocketsBound, HandoffsSafe, TimersSafe;
    InvParts(s);
    var socket := s.sockets[c];
    if !socket.replaced && socket.username.Some? {
      CallbackSetsTimer(s, c, socket.username.value);
      TimedStaysTended(s, c, socket.username.value, n);
    } else {
      CallbackIgnores(s, c);
      IgnoredStaysTended(s, c, n);
    }
  }

  lemma TimedStaysTended(s: State, c: nat, name: Name, n: Name)
    requires c < |s.sockets| && s.sockets[c].username == Some(name) && BoundSocket(s, name) == Some(c)
    requires TendedFor(s, n)
    ensures TendedFor(AddTimer(s.(sockets := s.sockets[c := s.sockets[c].(notified := true)]), c, name), n)
  {
  }

  lemma IgnoredStaysTended(s: State, c: nat, n: Name)
    requires c < |s.sockets| && (s.sockets[c].replaced || s.sockets[c].username.None?)
    requires TendedFor(s, n)
    ensures TendedFor(s.(sockets := s.sockets[c := s.sockets[c].(notified := true)]), n)
  {
  }

  lemma StepKeepsTended(s: State, e: Event)
    requires Inv(s) && Tended(s) && Enabled(s, e) && Orderly(s, e)
    ensures Tended(Step(s, e))
  {
    hide Inv, TendedFor, Step, Enabled, Orderly;
    LoginsStayUnreported(s, e);
    forall n ensures TendedFor(Step(s, e), n) {
      StepKeepsTendedFor(s, e, n);
    }
  }

  predicate OrderlyRun(s: State, es: seq<Event>)
    requires ValidRun(s, es)
    decreases |es|
  {
    es == [] || (Orderly(s, es[0]) && OrderlyRun(Step(s, es[0]), es[1..]))
  }

  lemma {:induction false} RunKeepsTended(s: State, es: seq<Event>)
    requires Inv(s) && Tended(s) && ValidRun(s, es) && OrderlyRun(s, es)
    ensures Tended(Run(s, es))
    decreases |es|
  {
    hide Inv, Tended, Step, Enabled, Orderly;
    if es == [] {
    } else {
      StepKeepsInv(s, es[0]);
      StepKeepsTended(s, es[0]);
      RunKeepsTended(Step(s, es[0]), es[1..]);
    }
  }

  /** Nobody is left online without an end in sight: whoever is still bound to a socket that carries the
      name and was reported closed, but not replaced, has a live cleanup waiting for exactly that socket. */
  lemma NobodyIsStranded(es: seq<Event>, name: Name, c: nat)
    requires ValidRun(START, es) && OrderlyRun(START, es)
    requires var s := Run(START, es);
             && BoundSocket(s, name) == Some(c) && c < |s.sockets| && s.sockets[c].username == Some(name)
             && s.sockets[c].notified && !s.sockets[c].replaced
    ensures var s := Run(START, es);
            && name in s.pending && s.pending[name] < |s.timers|
            && s.timers[s.pending[name]] == Timer(name, c, true)
  {
    StartIsSafe();
    RunKeepsInv(START, es);
    RunKeepsTended(START, es);
    assert TendedFor(Run(START, es), name);
    hide UsersBound, SocketsBound, HandoffsSafe, Run, ValidRun, OrderlyRun, Tended;
  }
}
