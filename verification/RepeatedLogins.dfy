/**
 Sockets that authorize more than once: over every run, which logins take effect and for how long, and what
 holds besides when every socket authorizes once.
 */
module RepeatedLogins {
  import opened Wrappers
  import opened HandoffProtocol
  import opened HandoffTheorems

  // ------------------------------------------------- who is marked replaced

  predicate Replaced(s: State, c: nat) {
    c < |s.sockets| && s.sockets[c].replaced
  }

  /** A socket keeps its place, and its authentication, through every event. */
  lemma StepKeepsAuthenticated(s: State, e: Event, c: nat)
    requires Inv(s) && Enabled(s, e) && c < |s.sockets|
    ensures var s' := Step(s, e); c < |s'.sockets| && (s.sockets[c].authenticated ==> s'.sockets[c].authenticated)
  {
    hide Inv, UsersBound, SocketsBound, HandoffsSafe, TimersSafe, Enter, Rebind;
    InvParts(s);
    match e {
      case EnterLock(d) => EnterSpares(s, d, c);
      case OldClosed(d, closed) => RebindSpares(s, d, closed, c);
      case _ =>
    }
  }

  lemma RebindSpares(s: State, d: nat, closed: bool, c: nat)
    requires Inv(s) && Enabled(s, OldClosed(d, closed)) && c < |s.sockets|
    ensures var s' := Step(s, OldClosed(d, closed));
            && |s'.sockets| == |s.sockets| && s'.sockets[c].replaced == s.sockets[c].replaced
            && (s.sockets[c].authenticated ==> s'.sockets[c].authenticated)
  {
    hide Inv, UsersBound, SocketsBound, HandoffsSafe, TimersSafe;
    InvParts(s);
    TakeOverBinds(s, d);
  }

  /** The replaced sockets after an event are those before it and the one whose session a login took. */
  lemma StepReplaces(s: State, e: Event, c: nat)
    requires Inv(s) && Enabled(s, e)
    ensures Replaced(Step(s, e), c) <==> Replaced(s, c) || TakesFrom(s, e, c)
  {
    hide Inv, UsersBound, SocketsBound, HandoffsSafe, TimersSafe, Enter, Rebind;
    InvParts(s);
    match e {
      case EnterLock(d) =>
        TakenIsThere(s, e, c);
        EnterSpares(s, d, if c < |s.sockets| then c else d);
      case OldClosed(d, closed) => RebindSpares(s, d, closed, if c < |s.sockets| then c else d);
      case _ =>
    }
  }

  lemma TakenIsThere(s: State, e: Event, c: nat)
    requires UsersBound(s) && Enabled(s, e)
    ensures TakesFrom(s, e, c) ==> c < |s.sockets|
  {
  }

  /** After any run, a socket is marked replaced if and only if a login took the session it served. */
  lemma {:induction false} RunReplacesIff(s: State, es: seq<Event>, c: nat)
    requires Inv(s) && ValidRun(s, es)
    ensures Replaced(Run(s, es), c) <==> Replaced(s, c) || HandedOff(s, es, c)
    decreases |es|
  {
    hide Inv, Replaced, Step, Enabled, TakesFrom;
    if es == [] {
    } else {
      StepKeepsInv(s, es[0]);
      StepReplaces(s, es[0], c);
      RunReplacesIff(Step(s, es[0]), es[1..], c);
    }
  }

  lemma {:induction false} RunKeepsAuthenticated(s: State, es: seq<Event>, c: nat)
    requires Inv(s) && ValidRun(s, es) && c < |s.sockets| && s.sockets[c].authenticated
    ensures c < |Run(s, es).sockets| && Run(s, es).sockets[c].authenticated
    decreases |es|
  {
    hide Inv, Step, Enabled;
    if es == [] {
    } else {
      StepKeepsInv(s, es[0]);
      StepKeepsAuthenticated(s, es[0], c);
      RunKeepsAuthenticated(Step(s, es[0]), es[1..], c);
    }
  }

  /** A socket whose packets are acted on stays so, over any run, if and only if no login takes its session. */
  lemma AcceptedUntilHandedOff(s: State, es: seq<Event>, c: nat)
    requires Inv(s) && ValidRun(s, es) && Accepts(s, c)
    ensures Accepts(Run(s, es), c) <==> !HandedOff(s, es, c)
  {
    hide Inv, ValidRun, Run, HandedOff;
    RunReplacesIff(s, es, c);
    RunKeepsAuthenticated(s, es, c);
  }

  // --------------------------------------------------- logins take effect

  /** May a login for this name go through without a handoff? */
  predicate Free(s: State, name: Name) {
    name !in s.users || (s.users[name].Bot? && name in s.bots)
  }

  /** Is this the event that ends the login of socket c? */
  predicate EndsLogin(s: State, e: Event, c: nat) {
    Enabled(s, e) && ((e == EnterLock(c) && Free(s, s.sockets[c].login.name)) || (e.OldClosed? && e.socket == c))
  }

  lemma EndedLoginBinds(s: State, e: Event, c: nat)
    requires Inv(s) && EndsLogin(s, e, c)
    ensures var s' := Step(s, e);
            && BoundSocket(s', s.sockets[c].login.name) == Some(c)
            && c < |s'.sockets| && s'.sockets[c].authenticated && s'.sockets[c].replaced == s.sockets[c].replaced
            && (e.OldClosed? ==> !Accepts(s', s.sockets[c].login.prior))
  {
    if e.EnterLock? {
      FreeLoginBinds(s, c);
    } else {
      HandoffBinds(s, c, e.closed);
    }
    hide *;
  }

  lemma FreeLoginBinds(s: State, c: nat)
    requires Inv(s) && Enabled(s, EnterLock(c)) && Free(s, s.sockets[c].login.name)
    ensures var s' := Step(s, EnterLock(c));
            && BoundSocket(s', s.sockets[c].login.name) == Some(c)
            && c < |s'.sockets| && s'.sockets[c].authenticated && s'.sockets[c].replaced == s.sockets[c].replaced
  {
    hide Inv, Step, Enter, CancelPending, UsersBound, SocketsBound, HandoffsSafe, TimersSafe;
    InvParts(s);
    EnterIs(s, c);
  }

  lemma HandoffBinds(s: State, c: nat, closed: bool)
    requires Inv(s) && Enabled(s, OldClosed(c, closed))
    ensures var s' := Step(s, OldClosed(c, closed));
            && BoundSocket(s', s.sockets[c].login.name) == Some(c)
            && c < |s'.sockets| && s'.sockets[c].authenticated && s'.sockets[c].replaced == s.sockets[c].replaced
            && !Accepts(s', s.sockets[c].login.prior)
  {
    hide Inv, UsersBound, SocketsBound, HandoffsSafe, TimersSafe;
    InvParts(s);
    TakeOverBinds(s, c);
  }

  /** A login that ends, after any run, binds its name to its socket; the socket's packets are then acted on if
      and only if no login, this one included, ever took a session from that socket.  The packets of the socket
      it took the session from no longer are. */
  lemma LoginTakesEffectIff(es: seq<Event>, e: Event, c: nat)
    requires ValidRun(START, es) && EndsLogin(Run(START, es), e, c)
    ensures var s := Run(START, es);
            var s' := Step(s, e);
            && BoundSocket(s', s.sockets[c].login.name) == Some(c)
            && (Accepts(s', c) <==> !HandedOff(START, es, c))
            && (e.OldClosed? ==> !Accepts(s', s.sockets[c].login.prior))
  {
    StartIsSafe();
    RunKeepsInv(START, es);
    RunReplacesIff(START, es, c);
    EndedLoginBinds(Run(START, es), e, c);
    hide Inv, Run, ValidRun, HandedOff, BoundSocket, Step;
  }

  // ------------------------------------------------- authorizing again

  /** What a socket does that authorizes again and meets nobody else. */
  function Again(s: State, c: nat, name: Name, closed: bool): seq<Event> {
    [Reauthorize(c, name), EnterLock(c)] + if Free(s, name) then [] else [Notified(c), OldClosed(c, closed)]
  }

  /** A socket in use that authorizes again gets the name, but is acted on afterwards if and only if the name
      was not already its own: a socket that authorizes for the name it serves hands its session to itself.  (A
      name it served before stays bound to it, and is not claimed by its disconnect callback any more.) */
  lemma ReauthorizingTakesEffectIff(s: State, c: nat, name: Name, closed: bool)
    requires Inv(s) && Enabled(s, Reauthorize(c, name)) && Accepts(s, c)
    requires name !in s.holder && (name in s.users && s.users[name].Bot? ==> name in s.bots)
    ensures var es := Again(s, c, name, closed);
            && ValidRun(s, es) && BoundSocket(Run(s, es), name) == Some(c)
            && (Accepts(Run(s, es), c) <==> BoundSocket(s, name) != Some(c))
  {
    if Free(s, name) {
      FreeAgain(s, c, name, closed);
    } else {
      HandedAgain(s, c, name, closed);
    }
    hide *;
  }

  lemma FreeAgain(s: State, c: nat, name: Name, closed: bool)
    requires Inv(s) && Enabled(s, Reauthorize(c, name)) && Accepts(s, c) && name !in s.holder && Free(s, name)
    ensures var es := Again(s, c, name, closed);
            && ValidRun(s, es) && BoundSocket(Run(s, es), name) == Some(c)
            && Accepts(Run(s, es), c) && BoundSocket(s, name) != Some(c)
  {
    hide Inv, Enter;
    var s1 := SetLogin(s, c, Queued(name));
    QueueKeepsInv(s, c, name);
    FreeLoginBinds(s1, c);
    var es := Again(s, c, name, closed);
    RunCons(s1, EnterLock(c), [], es[1..]);
    RunCons(s, Reauthorize(c, name), es[1..], es);
  }

  lemma HandedAgain(s: State, c: nat, name: Name, closed: bool)
    requires Inv(s) && Enabled(s, Reauthorize(c, name)) && Accepts(s, c)
    requires name !in s.holder && name in s.users && s.users[name].Human?
    ensures var es := Again(s, c, name, closed);
            && ValidRun(s, es) && BoundSocket(Run(s, es), name) == Some(c)
            && (Accepts(Run(s, es), c) <==> BoundSocket(s, name) != Some(c))
  {
    hide Inv, UsersBound, Enter, Rebind, BoundSocket;
    var s1 := SetLogin(s, c, Queued(name));
    var s2 := Step(s1, EnterLock(c));
    QueueKeepsInv(s, c, name);
    StepKeepsInv(s1, EnterLock(c));
    StartsNotifying(s1, c);
    var s3 := Step(s2, Notified(c));
    StepKeepsInv(s2, Notified(c));
    HandoffBinds(s3, c, closed);
    BoundAfterQueueing(s, c, name);
    var es := Again(s, c, name, closed);
    RunCons(s3, OldClosed(c, closed), [], es[3..]);
    RunCons(s2, Notified(c), es[3..], es[2..]);
    RunCons(s1, EnterLock(c), es[2..], es[1..]);
    RunCons(s, Reauthorize(c, name), es[1..], es);
  }

  lemma BoundAfterQueueing(s: State, c: nat, name: Name)
    requires c < |s.sockets|
    ensures BoundSocket(SetLogin(s, c, Queued(name)), name) == BoundSocket(s, name)
  {
  }

  /** A login for a human's name goes on to notify the socket the name is bound to. */
  lemma StartsNotifying(s: State, c: nat)
    requires Inv(s) && Enabled(s, EnterLock(c))
    requires s.sockets[c].login.name in s.users && s.users[s.sockets[c].login.name].Human?
    ensures var s' := Step(s, EnterLock(c));
            && c < |s'.sockets| && s'.sockets[c].login.Notifying? && s'.sockets[c].login.name == s.sockets[c].login.name
            && (s'.sockets[c].replaced <==> s.sockets[c].replaced || TakesFrom(s, EnterLock(c), c))
  {
    hide Inv, UsersBound, Enter, CancelPending;
    InvParts(s);
    HumansAreBound(s, s.sockets[c].login.name);
    EnterSpares(s, c, c);
    EnterIs(s, c);
  }

  lemma RunCons(s: State, e: Event, es: seq<Event>, run: seq<Event>)
    requires run == [e] + es && Enabled(s, e) && ValidRun(Step(s, e), es)
    ensures ValidRun(s, run) && Run(s, run) == Run(Step(s, e), es)
    ensures Orderly(s, e) && OrderlyRun(Step(s, e), es) ==> OrderlyRun(s, run)
  {
    hide Step, Enabled, Orderly;
    assert run[1..] == es;
  }

  const LOCKED_OUT: seq<Event> :=
    [Connect, Authorize(0, "a"), EnterLock(0), Reauthorize(0, "a"), EnterLock(0), Notified(0), OldClosed(0, true),
     DisconnectCallback(0)]

  /** One socket and one user, bound to it. */
  function Alone(socket: Socket, holder: map<Name, nat>): State {
    State([socket], [0], map["a" := Human(0)], {}, holder, [], map[])
  }

  /** Such a run: after it the name is online on a closed socket for which no cleanup waits. */
  lemma ReauthorizingLocksOut()
    ensures ValidRun(START, LOCKED_OUT) && OrderlyRun(START, LOCKED_OUT)
    ensures var s := Run(START, LOCKED_OUT);
            && BoundSocket(s, "a") == Some(0) && !Accepts(s, 0) && !s.sockets[0].open && s.sockets[0].notified
            && s.timers == [] && s.pending == map[]
  {
    SecondLogin();
    FirstLogin(LOCKED_OUT[3..]);
    assert LOCKED_OUT == [Connect, Authorize(0, "a"), EnterLock(0)] + LOCKED_OUT[3..];
    hide Run, ValidRun, OrderlyRun;
  }

  lemma FirstLogin(es: seq<Event>)
    requires var s := Alone(Socket(Some("a"), true, false, true, false, Bound), map[]);
             ValidRun(s, es) && OrderlyRun(s, es)
    ensures var run := [Connect, Authorize(0, "a"), EnterLock(0)] + es;
            && ValidRun(START, run) && OrderlyRun(START, run)
            && Run(START, run) == Run(Alone(Socket(Some("a"), true, false, true, false, Bound), map[]), es)
  {
    hide Run, ValidRun, OrderlyRun;
    var s1 := Step(START, Connect);
    var s2 := Step(s1, Authorize(0, "a"));
    assert Step(s2, EnterLock(0)) == Alone(Socket(Some("a"), true, false, true, false, Bound), map[]);
    RunCons(s2, EnterLock(0), es, [EnterLock(0)] + es);
    RunCons(s1, Authorize(0, "a"), [EnterLock(0)] + es, [Authorize(0, "a"), EnterLock(0)] + es);
    RunCons(START, Connect, [Authorize(0, "a"), EnterLock(0)] + es, [Connect, Authorize(0, "a"), EnterLock(0)] + es);
  }

  lemma SecondLogin()
    ensures var s := Alone(Socket(Some("a"), true, false, true, false, Bound), map[]);
            && ValidRun(s, LOCKED_OUT[3..]) && OrderlyRun(s, LOCKED_OUT[3..])
            && Run(s, LOCKED_OUT[3..]) == Alone(Socket(Some("a"), true, true, false, true, Bound), map[])
  {
    hide Run, ValidRun, OrderlyRun;
    var s := Alone(Socket(Some("a"), true, false, true, false, Bound), map[]);
    var s1 := Step(s, Reauthorize(0, "a"));
    var s2 := Alone(Socket(Some("a"), true, true, true, false, Notifying("a", 0, 0)), map["a" := 0]);
    assert Step(s1, EnterLock(0)) == s2;
    var s3 := Alone(Socket(Some("a"), true, true, true, false, Closing("a", 0, 0)), map["a" := 0]);
    assert Step(s2, Notified(0)) == s3;
    var s4 := Alone(Socket(Some("a"), true, true, false, false, Bound), map[]);
    assert Step(s3, OldClosed(0, true)) == s4;
    var s5 := Alone(Socket(Some("a"), true, true, false, true, Bound), map[]);
    assert Step(s4, DisconnectCallback(0)) == s5;
    RunNil(s5);
    var es := LOCKED_OUT;
    RunCons(s4, DisconnectCallback(0), [], es[7..]);
    RunCons(s3, OldClosed(0, true), es[7..], es[6..]);
    RunCons(s2, Notified(0), es[6..], es[5..]);
    RunCons(s1, EnterLock(0), es[5..], es[4..]);
    RunCons(s, Reauthorize(0, "a"), es[4..], es[3..]);
  }

  lemma RunNil(s: State)
    ensures ValidRun(s, []) && OrderlyRun(s, []) && Run(s, []) == s
  {
  }

  // --------------------------------------------- sockets that authorize once

  predicate Once(es: seq<Event>) {
    forall e :: e in es ==> !e.Reauthorize?
  }

  /** The socket a name is bound to carries the name. */
  ghost predicate Carried(s: State) {
    forall n :: BoundSocket(s, n).Some? ==> Carries(s, BoundSocket(s, n).value, n)
  }

  predicate Carries(s: State, c: nat, n: Name) {
    c < |s.sockets| && s.sockets[c].username == Some(n)
  }

  /** A login in progress has no session yet, and only sockets that served a user are ever replaced. */
  ghost predicate LoginsFirst(s: State) {
    forall c :: 0 <= c < |s.sockets| ==>
      && (s.sockets[c].authenticated ==> s.sockets[c].login == Bound)
      && (s.sockets[c].replaced ==> s.sockets[c].authenticated)
  }

  /** Cleanups wait for unreplaced sockets. */
  ghost predicate TimersUnreplaced(s: State) {
    forall t :: 0 <= t < |s.timers| && s.timers[t].live ==> !Replaced(s, s.timers[t].socket)
  }

  /** What holds besides when no socket authorizes again. */
  ghost predicate Single(s: State) {
    Carried(s) && LoginsFirst(s) && TimersUnreplaced(s)
  }

  /** The socket whose login goes on serves nobody yet. */
  lemma LoginUnbound(s: State, c: nat, n: Name)
    requires UsersBound(s) && LoginsFirst(s) && c < |s.sockets| && s.sockets[c].login != Bound
    ensures BoundSocket(s, n) != Some(c)
  {
  }

  lemma CancelKeepsSingle(s: State, name: Name)
    requires Single(s)
    ensures Single(CancelPending(s, name))
  {
    assert forall n :: BoundSocket(CancelPending(s, name), n) == BoundSocket(s, n);
    hide BoundSocket;
  }

  lemma FreshKeepsSingle(s: State, c: nat, name: Name)
    requires UsersBound(s) && Single(s) && c < |s.sockets| && s.sockets[c].login != Bound && name !in s.users
    ensures Single(BindFresh(s, c, name))
  {
    hide UsersBound, BoundSocket;
    FreshBinds(s, c, name);
    forall n ensures BoundSocket(s, n) != Some(c) {
      LoginUnbound(s, c, n);
    }
  }

  lemma DropBotKeepsSingle(s: State, name: Name)
    requires Single(s) && name in s.users && s.users[name].Bot?
    ensures Single(s.(users := s.users - {name}))
  {
    assert forall n :: BoundSocket(s.(users := s.users - {name}), n) == BoundSocket(s, n);
    hide BoundSocket;
  }

  lemma HandoffStartKeepsSingle(s: State, c: nat, name: Name)
    requires UsersBound(s) && TimersSafe(s) && Single(s) && c < |s.sockets| && s.sockets[c].login.Queued?
    requires name in s.users && s.users[name].Human? && name !in s.pending
    requires s.users[name].user < |s.connection| && s.connection[s.users[name].user] < |s.sockets|
    ensures Single(StartHandoff(s, c, name, s.users[name].user))
  {
    var prior := s.connection[s.users[name].user];
    var s' := StartHandoff(s, c, name, s.users[name].user);
    assert s.sockets[prior].authenticated && BoundSocket(s, name) == Some(prior);
    assert forall n :: BoundSocket(s', n) == BoundSocket(s, n);
    hide UsersBound, BoundSocket;
    forall t | 0 <= t < |s.timers| && s.timers[t].live ensures s.timers[t].socket != prior {
      assert BoundSocket(s, s.timers[t].name) == Some(s.timers[t].socket);
    }
  }

  lemma LoginKeepsSingle(s: State, c: nat, l: Login)
    requires Single(s) && c < |s.sockets| && s.sockets[c].login != Bound
    ensures Single(SetLogin(s, c, l))
  {
    assert forall n :: BoundSocket(SetLogin(s, c, l), n) == BoundSocket(s, n);
    hide BoundSocket;
  }

  lemma EnterKeepsSingle(s: State, c: nat)
    requires Inv(s) && Single(s) && Enabled(s, EnterLock(c))
    ensures Single(Step(s, EnterLock(c)))
  {
    hide Inv, Single, UsersBound, SocketsBound, HandoffsSafe, TimersSafe, Step, Enter, CancelPending, BindFresh,
      StartHandoff, SetLogin;
    var name := s.sockets[c].login.name;
    var s1 := CancelPending(s, name);
    InvParts(s);
    HumansAreBound(s, name);
    EnterIs(s, c);
    CancelKeepsInv(s, name);
    CancelKeepsSingle(s, name);
    CancelIs(s, name);
    InvParts(s1);
    if name !in s.users {
      FreshKeepsSingle(s1, c, name);
    } else if s.users[name].Human? {
      HandoffStartKeepsSingle(s1, c, name);
    } else if name in s.bots {
      DropBotKeepsSingle(s1, name);
      DropBotKeepsUsers(s1, name);
      FreshKeepsSingle(s1.(users := s1.users - {name}), c, name);
    } else {
      LoginKeepsSingle(s1, c, Failed);
    }
  }

  lemma RebindKeepsSingle(s: State, c: nat, closed: bool)
    requires Inv(s) && Single(s) && Enabled(s, OldClosed(c, closed))
    ensures Single(Step(s, OldClosed(c, closed)))
  {
    hide UsersBound, SocketsBound, HandoffsSafe, TimersSafe, BoundSocket, Rebind;
    InvParts(s);
    var Closing(name, u, prior) := s.sockets[c].login;
    TakeOverBinds(s, c);
    CloseCommutes(s, c);
    var s1, s2 := Rebind(s, c, name, u, prior, false), Rebind(s, c, name, u, prior, closed);
    assert s2.users == s1.users && s2.connection == s1.connection;
    SameBound(s1, s2);
    forall n ensures BoundSocket(s, n) != Some(c) {
      LoginUnbound(s, c, n);
    }
  }

  lemma SameBound(s: State, s': State)
    requires s'.users == s.users && s'.connection == s.connection
    ensures forall n :: BoundSocket(s', n) == BoundSocket(s, n)
  {
  }

  lemma CallbackKeepsSingle(s: State, c: nat)
    requires Inv(s) && Single(s) && Enabled(s, DisconnectCallback(c))
    ensures Single(Step(s, DisconnectCallback(c)))
  {
    hide Inv, BoundSocket;
    SameBound(s, OnDisconnect(s, c));
  }

  lemma CleanupKeepsSingle(s: State, t: nat)
    requires Inv(s) && Single(s) && Enabled(s, TimerFires(t))
    ensures Single(Step(s, TimerFires(t)))
  {
    hide Inv;
    var s' := Step(s, TimerFires(t));
    assert forall n :: BoundSocket(s', n).Some? ==> BoundSocket(s', n) == BoundSocket(s, n);
    hide BoundSocket;
  }

  /** An event that changes no binding keeps what every socket has, but for its flags, its login and new ones. */
  lemma OthersKeepSingle(s: State, e: Event)
    requires Inv(s) && Single(s) && Enabled(s, e)
    requires !e.EnterLock? && !e.OldClosed? && !e.DisconnectCallback? && !e.TimerFires? && !e.Reauthorize?
    ensures Single(Step(s, e))
  {
    hide UsersBound, HandoffsSafe, TimersSafe;
    var s' := Step(s, e);
    assert forall n :: BoundSocket(s', n) == BoundSocket(s, n);
    hide BoundSocket;
  }

  lemma StepKeepsSingle(s: State, e: Event)
    requires Inv(s) && Single(s) && Enabled(s, e) && !e.Reauthorize?
    ensures Single(Step(s, e))
  {
    hide Inv, Single, Step;
    match e {
      case EnterLock(c) => EnterKeepsSingle(s, c);
      case OldClosed(c, closed) => RebindKeepsSingle(s, c, closed);
      case DisconnectCallback(c) => CallbackKeepsSingle(s, c);
      case TimerFires(t) => CleanupKeepsSingle(s, t);
      case _ => OthersKeepSingle(s, e);
    }
  }

  lemma {:induction false} RunKeepsSingle(s: State, es: seq<Event>)
    requires Inv(s) && Single(s) && ValidRun(s, es) && Once(es)
    ensures Single(Run(s, es))
    decreases |es|
  {
    hide Inv, Single, Step, Enabled;
    if es == [] {
    } else {
      StepKeepsInv(s, es[0]);
      StepKeepsSingle(s, es[0]);
      RunKeepsSingle(Step(s, es[0]), es[1..]);
    }
  }

  lemma StartIsSingle()
    ensures Single(START)
  {
  }

  /** Where sockets authorize once, every login that ends takes effect. */
  lemma LoginTakesEffect(es: seq<Event>, e: Event, c: nat)
    requires ValidRun(START, es) && Once(es) && EndsLogin(Run(START, es), e, c)
    ensures var s := Run(START, es);
            var s' := Step(s, e);
            && BoundSocket(s', s.sockets[c].login.name) == Some(c) && Accepts(s', c)
            && (e.OldClosed? ==> !Accepts(s', s.sockets[c].login.prior))
  {
    hide Inv, Run, ValidRun, HandedOff, BoundSocket, Step, Carried, TimersUnreplaced, Accepts;
    StartIsSafe();
    StartIsSingle();
    RunKeepsSingle(START, es);
    RunReplacesIff(START, es, c);
    LoginTakesEffectIff(es, e, c);
  }

  /** Where sockets authorize once, a name left on a reported socket awaits its cleanup if and only if that
      socket was not marked replaced: nobody else is stranded. */
  lemma CleanupWaitsIff(es: seq<Event>, name: Name, c: nat)
    requires ValidRun(START, es) && OrderlyRun(START, es) && Once(es)
    requires var s := Run(START, es);
             BoundSocket(s, name) == Some(c) && c < |s.sockets| && s.sockets[c].notified
    ensures var s := Run(START, es);
            !s.sockets[c].replaced <==>
            name in s.pending && s.pending[name] < |s.timers| && s.timers[s.pending[name]] == Timer(name, c, true)
  {
    hide Inv, Run, ValidRun, OrderlyRun, BoundSocket, LoginsFirst;
    StartIsSafe();
    StartIsSingle();
    RunKeepsSingle(START, es);
    if !Run(START, es).sockets[c].replaced {
      NobodyIsStranded(es, name, c);
    }
  }
}
