/**
 Which users are taken offline after their socket closed: exactly when a cleanup waits, over every run, and what
 becomes of a name for which none was set up.
 */
module DisconnectCleanup {
  import opened Wrappers
  import opened HandoffProtocol
  import opened HandoffTheorems
  import opened RepeatedLogins

  // ------------------------------------------------- when a cleanup waits

  /** A live, registered cleanup waits to take a name offline that is bound to socket c. */
  predicate Waits(s: State, n: Name, c: nat) {
    n in s.pending && s.pending[n] < |s.timers| && s.timers[s.pending[n]] == Timer(n, c, true)
  }

  /** Does the disconnect callback of socket c take this name for its user's? */
  predicate Claims(s: State, n: Name, c: nat) {
    c < |s.sockets| && !s.sockets[c].replaced && s.sockets[c].username == Some(n)
  }

  predicate SetsUp(s: State, e: Event, n: Name, c: nat) {
    e == DisconnectCallback(c) && Claims(s, n, c)
  }

  /** A login for a name takes its lock. */
  predicate Locks(s: State, e: Event, n: Name)
    requires Enabled(s, e)
  {
    e.EnterLock? && s.sockets[e.socket].login.name == n
  }

  /** The cleanup of a name fires. */
  predicate Fires(s: State, e: Event, n: Name)
    requires Enabled(s, e)
  {
    e.TimerFires? && s.timers[e.timer].name == n
  }

  /** After one event a cleanup waits exactly if the event is a callback that claims the name, or it waited before
      and neither fired nor was cancelled by a login. */
  lemma StepWaits(s: State, e: Event, n: Name, c: nat)
    requires Inv(s) && Enabled(s, e)
    ensures Waits(Step(s, e), n, c) <==>
            SetsUp(s, e, n, c) || (Waits(s, n, c) && !Locks(s, e, n) && !Fires(s, e, n))
  {
    hide Inv, Enter, Rebind, Cleanup, OnDisconnect;
    match e {
      case EnterLock(d) => EnterWaits(s, d, n, c);
      case OldClosed(d, closed) => RebindWaits(s, d, closed, n, c);
      case DisconnectCallback(d) => CallbackWaits(s, d, n, c);
      case TimerFires(t) => CleanupWaits(s, t, n, c);
      case _ =>
    }
  }

  lemma EnterWaits(s: State, d: nat, n: Name, c: nat)
    requires Inv(s) && Enabled(s, EnterLock(d))
    ensures Waits(Step(s, EnterLock(d)), n, c) <==> Waits(s, n, c) && s.sockets[d].login.name != n
  {
    hide Inv, Step, Enter, CancelPending, UsersBound, SocketsBound, HandoffsSafe;
    InvParts(s);
    HumansAreBound(s, s.sockets[d].login.name);
    EnterIs(s, d);
    CancelWaits(s, s.sockets[d].login.name, n, c);
  }

  lemma CancelWaits(s: State, name: Name, n: Name, c: nat)
    requires TimersSafe(s)
    ensures Waits(CancelPending(s, name), n, c) <==> Waits(s, n, c) && name != n
  {
  }

  lemma RebindWaits(s: State, d: nat, closed: bool, n: Name, c: nat)
    requires Enabled(s, OldClosed(d, closed))
    ensures Waits(Step(s, OldClosed(d, closed)), n, c) <==> Waits(s, n, c)
  {
  }

  lemma CallbackWaits(s: State, d: nat, n: Name, c: nat)
    requires Inv(s) && Enabled(s, DisconnectCallback(d))
    ensures Waits(Step(s, DisconnectCallback(d)), n, c) <==>
            SetsUp(s, DisconnectCallback(d), n, c) || Waits(s, n, c)
  {
    hide Inv, OnDisconnect, UsersBound, SocketsBound, HandoffsSafe;
    InvParts(s);
    var socket := s.sockets[d];
    if !socket.replaced && socket.username.Some? {
      CallbackSetsTimer(s, d, socket.username.value);
    } else {
      CallbackIgnores(s, d);
    }
  }

  lemma CleanupWaits(s: State, t: nat, n: Name, c: nat)
    requires Inv(s) && Enabled(s, TimerFires(t))
    ensures Waits(Step(s, TimerFires(t)), n, c) <==> Waits(s, n, c) && s.timers[t].name != n
  {
    hide Inv, Cleanup, CancelPending, UsersBound, SocketsBound, HandoffsSafe;
    InvParts(s);
    LiveTimerIsCurrent(s, t);
    CancelWaits(s, s.timers[t].name, n, c);
  }

  /** Nothing in a run cancels or fires the cleanup of a name. */
  predicate Spared(s: State, es: seq<Event>, n: Name)
    requires ValidRun(s, es)
    decreases |es|
  {
    es == [] || (!Locks(s, es[0], n) && !Fires(s, es[0], n) && Spared(Step(s, es[0]), es[1..], n))
  }

  /** Some callback of socket c in a run claims a name, and the cleanup it sets up is spared from then on. */
  predicate SetUpIn(s: State, es: seq<Event>, n: Name, c: nat)
    requires ValidRun(s, es)
    decreases |es|
  {
    es != [] &&
    ((SetsUp(s, es[0], n, c) && Spared(Step(s, es[0]), es[1..], n)) || SetUpIn(Step(s, es[0]), es[1..], n, c))
  }

  lemma {:induction false} RunWaits(s: State, es: seq<Event>, n: Name, c: nat)
    requires Inv(s) && ValidRun(s, es)
    ensures Waits(Run(s, es), n, c) <==> SetUpIn(s, es, n, c) || (Waits(s, n, c) && Spared(s, es, n))
    decreases |es|
  {
    hide Inv, Waits, Step, Enabled, SetsUp, Locks, Fires;
    if es == [] {
    } else {
      StepKeepsInv(s, es[0]);
      StepWaits(s, es[0], n, c);
      RunWaits(Step(s, es[0]), es[1..], n, c);
    }
  }

  /** After any run whatever, a cleanup waits to take a name offline with socket c if and only if the disconnect
      callback of c ran while c was not marked replaced and carried that name, and since then neither has a login
      taken the lock of the name nor has the cleanup fired. */
  lemma CleanupWaitsExactlyIf(es: seq<Event>, n: Name, c: nat)
    requires ValidRun(START, es)
    ensures Waits(Run(START, es), n, c) <==> SetUpIn(START, es, n, c)
  {
    StartIsSafe();
    RunWaits(START, es, n, c);
    hide Inv, Run, ValidRun, SetUpIn, Spared;
  }

  // -------------------------------------------- the callback decides it

  /** The callback of the socket a name is bound to sets up its cleanup if and only if the socket was not marked
      replaced and carries that name. */
  lemma CallbackTendsIff(s: State, n: Name, c: nat)
    requires Inv(s) && Enabled(s, DisconnectCallback(c)) && BoundSocket(s, n) == Some(c)
    ensures Waits(Step(s, DisconnectCallback(c)), n, c) <==> Claims(s, n, c)
    ensures BoundSocket(Step(s, DisconnectCallback(c)), n) == Some(c)
  {
    hide Inv, OnDisconnect, BoundSocket;
    StepWaits(s, DisconnectCallback(c), n, c);
    UnreportedHasNone(s, n, c);
    SameUsers(s, c, n);
  }

  lemma UnreportedHasNone(s: State, n: Name, c: nat)
    requires Inv(s) && c < |s.sockets| && !s.sockets[c].notified
    ensures !Waits(s, n, c)
  {
    hide UsersBound, SocketsBound, HandoffsSafe, BoundSocket;
  }

  lemma SameUsers(s: State, c: nat, n: Name)
    requires c < |s.sockets|
    ensures BoundSocket(OnDisconnect(s, c), n) == BoundSocket(s, n)
  {
  }

  /** A login for a name takes its lock, or ends its handoff. */
  predicate Takes(s: State, e: Event, n: Name)
    requires Enabled(s, e)
  {
    Locks(s, e, n) || (e.OldClosed? && s.sockets[e.socket].login.name == n)
  }

  predicate Untaken(s: State, es: seq<Event>, n: Name)
    requires ValidRun(s, es)
    decreases |es|
  {
    es == [] || (!Takes(s, es[0], n) && Untaken(Step(s, es[0]), es[1..], n))
  }

  /** The cleanup of a name fires in a run. */
  predicate FiresIn(s: State, es: seq<Event>, n: Name)
    requires ValidRun(s, es)
    decreases |es|
  {
    es != [] && (Fires(s, es[0], n) || FiresIn(Step(s, es[0]), es[1..], n))
  }

  /** Without a login for it, a name stays where it is until its cleanup fires, and then it is offline. */
  lemma StepKeepsName(s: State, e: Event, n: Name)
    requires Inv(s) && Enabled(s, e) && !Takes(s, e, n)
    ensures BoundSocket(Step(s, e), n) == if Fires(s, e, n) then None else BoundSocket(s, n)
  {
    hide Inv, Enter, Rebind, Cleanup, OnDisconnect;
    match e {
      case EnterLock(d) => EnterKeepsName(s, d, n);
      case OldClosed(d, closed) => RebindKeepsName(s, d, closed, n);
      case DisconnectCallback(d) => SameUsers(s, d, n);
      case TimerFires(t) =>
        LiveTimerIsCurrent(s, t);
        CancelIs(s, s.timers[t].name);
      case _ =>
    }
  }

  lemma EnterKeepsName(s: State, d: nat, n: Name)
    requires Inv(s) && Enabled(s, EnterLock(d)) && s.sockets[d].login.name != n
    ensures BoundSocket(Step(s, EnterLock(d)), n) == BoundSocket(s, n)
  {
    hide Inv, Step, Enter, CancelPending, SocketsBound, HandoffsSafe, TimersSafe;
    InvParts(s);
    HumansAreBound(s, s.sockets[d].login.name);
    EnterIs(s, d);
  }

  lemma RebindKeepsName(s: State, d: nat, closed: bool, n: Name)
    requires Inv(s) && Enabled(s, OldClosed(d, closed)) && s.sockets[d].login.name != n
    ensures BoundSocket(Step(s, OldClosed(d, closed)), n) == BoundSocket(s, n)
  {
    hide Inv, UsersBound, SocketsBound, HandoffsSafe, TimersSafe, BoundSocket, Rebind;
    InvParts(s);
    var Closing(name, u, prior) := s.sockets[d].login;
    TakeOverBinds(s, d);
    CloseCommutes(s, d);
    SameBound(Rebind(s, d, name, u, prior, false), Rebind(s, d, name, u, prior, closed));
  }

  lemma {:induction false} RunKeepsName(s: State, es: seq<Event>, n: Name)
    requires Inv(s) && ValidRun(s, es) && Untaken(s, es, n)
    ensures BoundSocket(Run(s, es), n) == if FiresIn(s, es, n) then None else BoundSocket(s, n)
    ensures Spared(s, es, n) <==> !FiresIn(s, es, n)
    decreases |es|
  {
    hide Inv, Step, Enabled, BoundSocket, Fires;
    if es == [] {
    } else {
      StepKeepsInv(s, es[0]);
      StepKeepsName(s, es[0], n);
      RunKeepsName(Step(s, es[0]), es[1..], n);
    }
  }

  /** A reported socket sets up no further cleanup. */
  lemma {:induction false} ReportedOnce(s: State, es: seq<Event>, n: Name, c: nat)
    requires ValidRun(s, es) && c < |s.sockets| && s.sockets[c].notified
    ensures !SetUpIn(s, es, n, c)
    decreases |es|
  {
    hide Step, Claims;
    if es == [] {
    } else {
      StepKeepsReport(s, es[0], c);
      ReportedOnce(Step(s, es[0]), es[1..], n, c);
    }
  }

  lemma StepKeepsReport(s: State, e: Event, c: nat)
    requires Enabled(s, e) && c < |s.sockets| && s.sockets[c].notified
    ensures c < |Step(s, e).sockets| && Step(s, e).sockets[c].notified
  {
    hide Enter, OnDisconnect;
    match e {
      case EnterLock(d) => EnterKeepsReport(s, d, c);
      case DisconnectCallback(d) => CallbackReports(s, d);
      case _ =>
    }
  }

  lemma CallbackReports(s: State, d: nat)
    requires d < |s.sockets|
    ensures OnDisconnect(s, d).sockets == s.sockets[d := s.sockets[d].(notified := true)]
  {
  }

  lemma FiringWaits(s: State, e: Event, n: Name, c: nat)
    requires Inv(s) && Enabled(s, e) && Fires(s, e, n) && BoundSocket(s, n) == Some(c)
    ensures Waits(s, n, c)
  {
    hide Inv, UsersBound, SocketsBound, HandoffsSafe, BoundSocket;
    LiveTimerIsCurrent(s, e.timer);
    PendingWaits(s, n, c);
  }

  /** A name missed by the callback of its socket stays there: no cleanup for it ever fires. */
  lemma {:induction false} MissedNeverFires(s: State, es: seq<Event>, n: Name, c: nat)
    requires Inv(s) && ValidRun(s, es) && Untaken(s, es, n)
    requires c < |s.sockets| && s.sockets[c].notified && BoundSocket(s, n) == Some(c) && !Waits(s, n, c)
    ensures !FiresIn(s, es, n)
    decreases |es|
  {
    hide Inv, Step, BoundSocket, Waits, Fires, Locks, Claims;
    if es == [] {
    } else {
      if Fires(s, es[0], n) {
        FiringWaits(s, es[0], n, c);
      }
      StepKeepsInv(s, es[0]);
      StepKeepsReport(s, es[0], c);
      StepKeepsName(s, es[0], n);
      StepWaits(s, es[0], n, c);
      MissedNeverFires(Step(s, es[0]), es[1..], n, c);
    }
  }

  lemma {:induction false} RunSplit(s: State, a: seq<Event>, b: seq<Event>)
    requires ValidRun(s, a + b)
    ensures ValidRun(s, a) && ValidRun(Run(s, a), b) && Run(s, a + b) == Run(Run(s, a), b)
    decreases |a|
  {
    hide Step, Enabled;
    if a == [] {
      assert a + b == b;
    } else {
      assert (a + b)[1..] == a[1..] + b;
      RunSplit(Step(s, a[0]), a[1..], b);
    }
  }

  /** What the disconnect callback decides about a name bound to its socket holds until the next login for the
      name.  If the socket was unmarked and carried the name, the cleanup waits until it fires, and then the name
      is offline; otherwise the name stays online on the closed socket, and no cleanup for it ever waits. */
  lemma CallbackDecides(before: seq<Event>, c: nat, after: seq<Event>, n: Name)
    requires ValidRun(START, before + [DisconnectCallback(c)] + after)
    requires ValidRun(START, before) && BoundSocket(Run(START, before), n) == Some(c)
    requires ValidRun(START, before + [DisconnectCallback(c)])
    requires ValidRun(Run(START, before + [DisconnectCallback(c)]), after)
    requires Untaken(Run(START, before + [DisconnectCallback(c)]), after, n)
    ensures var s := Run(START, before);
            var s1 := Run(START, before + [DisconnectCallback(c)]);
            var s' := Run(START, before + [DisconnectCallback(c)] + after);
            if !Claims(s, n, c) then BoundSocket(s', n) == Some(c) && n !in s'.pending
            else if FiresIn(s1, after, n) then BoundSocket(s', n) == None && !Waits(s', n, c)
            else BoundSocket(s', n) == Some(c) && Waits(s', n, c)
  {
    hide Inv, Run, ValidRun, Untaken, FiresIn, BoundSocket, Claims, Waits, SetUpIn, Spared, Step, OnDisconnect;
    var e := DisconnectCallback(c);
    RunSplit(START, before + [e], after);
    RunSplit(START, before, [e]);
    var s, s1, s' := Run(START, before), Run(START, before + [e]), Run(START, before + [e] + after);
    StartIsSafe();
    RunKeepsInv(START, before);
    SingleStep(s, e);
    CallbackTendsIff(s, n, c);
    StepKeepsInv(s, e);
    CallbackMarks(s, c);
    RunKeepsName(s1, after, n);
    RunKeepsInv(s1, after);
    ReportedOnce(s1, after, n, c);
    RunWaits(s1, after, n, c);
    if !Claims(s, n, c) {
      MissedNeverFires(s1, after, n, c);
    }
    if n in s'.pending && BoundSocket(s', n) == Some(c) {
      PendingWaits(s', n, c);
    }
  }

  lemma SingleStep(s: State, e: Event)
    requires ValidRun(s, [e])
    ensures Enabled(s, e) && Run(s, [e]) == Step(s, e)
  {
    assert ValidRun(s, [e]) ==> Enabled(s, [e][0]) && [e][1..] == [];
  }

  lemma CallbackMarks(s: State, c: nat)
    requires Enabled(s, DisconnectCallback(c))
    ensures c < |Step(s, DisconnectCallback(c)).sockets| && Step(s, DisconnectCallback(c)).sockets[c].notified
  {
    hide OnDisconnect;
    CallbackReports(s, c);
  }

  lemma PendingWaits(s: State, n: Name, c: nat)
    requires Inv(s) && n in s.pending && BoundSocket(s, n) == Some(c)
    ensures Waits(s, n, c)
  {
    hide UsersBound, SocketsBound, HandoffsSafe, BoundSocket;
  }

  // -------------------------------------------- a name that is left behind

  const LEFT_BEHIND: seq<Event> :=
    [Connect, Authorize(0, "a"), EnterLock(0), Reauthorize(0, "b"), EnterLock(0), SocketCloses(0),
     DisconnectCallback(0)]

  /** The one socket after it authorized for "b" as well. */
  function Both(socket: Socket, timers: seq<Timer>, pending: map<Name, nat>): State {
    State([socket], [0, 0], map["a" := Human(0), "b" := Human(1)], {}, map[], timers, pending)
  }

  /** A socket authorizes for one name, then for another, and closes: the first name stays online on the closed
      socket, which was never replaced, and its cleanup waits for the second name only. */
  lemma ReauthorizingLeavesBehind()
    ensures ValidRun(START, LEFT_BEHIND) && OrderlyRun(START, LEFT_BEHIND)
    ensures var s := Run(START, LEFT_BEHIND);
            && BoundSocket(s, "a") == Some(0) && !s.sockets[0].open && s.sockets[0].notified && !s.sockets[0].replaced
            && "a" !in s.pending && Waits(s, "b", 0)
  {
    SecondName();
    FirstLogin(LEFT_BEHIND[3..]);
    assert LEFT_BEHIND == [Connect, Authorize(0, "a"), EnterLock(0)] + LEFT_BEHIND[3..];
    hide Run, ValidRun, OrderlyRun;
  }

  lemma SecondName()
    ensures var s := Alone(Socket(Some("a"), true, false, true, false, Bound), map[]);
            && ValidRun(s, LEFT_BEHIND[3..]) && OrderlyRun(s, LEFT_BEHIND[3..])
            && Run(s, LEFT_BEHIND[3..])
               == Both(Socket(Some("b"), true, false, false, true, Bound), [Timer("b", 0, true)], map["b" := 0])
  {
    hide Run, ValidRun, OrderlyRun;
    var s := Alone(Socket(Some("a"), true, false, true, false, Bound), map[]);
    var s1 := Alone(Socket(Some("a"), true, false, true, false, Queued("b")), map[]);
    assert Step(s, Reauthorize(0, "b")) == s1;
    var s2 := Both(Socket(Some("b"), true, false, true, false, Bound), [], map[]);
    assert Step(s1, EnterLock(0)) == s2;
    ClosingAfter(s2);
    var es := LEFT_BEHIND;
    RunCons(s1, EnterLock(0), es[5..], es[4..]);
    RunCons(s, Reauthorize(0, "b"), es[4..], es[3..]);
  }

  lemma ClosingAfter(s: State)
    requires s == Both(Socket(Some("b"), true, false, true, false, Bound), [], map[])
    ensures ValidRun(s, LEFT_BEHIND[5..]) && OrderlyRun(s, LEFT_BEHIND[5..])
    ensures Run(s, LEFT_BEHIND[5..])
         == Both(Socket(Some("b"), true, false, false, true, Bound), [Timer("b", 0, true)], map["b" := 0])
  {
    hide Run, ValidRun, OrderlyRun;
    var s1 := Both(Socket(Some("b"), true, false, false, false, Bound), [], map[]);
    assert Step(s, SocketCloses(0)) == s1;
    var s2 := Both(Socket(Some("b"), true, false, false, true, Bound), [Timer("b", 0, true)], map["b" := 0]);
    assert Step(s1, DisconnectCallback(0)) == s2;
    RunNil(s2);
    var es := LEFT_BEHIND;
    RunCons(s1, DisconnectCallback(0), [], es[6..]);
    RunCons(s, SocketCloses(0), es[6..], es[5..]);
  }
}
