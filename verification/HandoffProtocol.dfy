/**
 The login handoff and debounced disconnect of server/core/server.py as a state machine.

 Each event is one stretch of server code between two awaits, which the event loop runs without
 interruption.  Objects whose identity matters (sockets, users, timer tasks) live in sequences and are
 named by their position.  Usernames are opaque and compared exactly.
 */
module HandoffProtocol {
  import opened Wrappers

  type Name = string

  /** Where a socket's login coroutine stands. */
  datatype Login =
    | Idle                                            // has not authorized
    | Queued(name: Name)                              // waits for the login lock of the name
    | Notifying(name: Name, user: nat, prior: nat)      // holds the lock, awaits old.send
    | Closing(name: Name, user: nat, prior: nat)        // holds the lock, awaits old.close
    | Bound
    | Failed

  datatype Socket = Socket(
    username: Option<Name>,
    authenticated: bool,
    replaced: bool,
    open: bool,
    notified: bool,       // the disconnect callback has run for it
    login: Login)

  /** Who a username stands for: a NetworkUser object, or a virtual bot. */
  datatype Owner = Human(user: nat) | Bot

  /** A cleanup task; live until it fires or is cancelled. */
  datatype Timer = Timer(name: Name, socket: nat, live: bool)

  datatype State = State(
    sockets: seq<Socket>,
    connection: seq<nat>,         // NetworkUser.connection, by user
    users: map<Name, Owner>,
    bots: set<Name>,              // names the bot manager can take offline
    holder: map<Name, nat>,       // login lock of a name -> socket whose login holds it
    timers: seq<Timer>,
    pending: map<Name, nat>)      // _pending_disconnects

  const START := State([], [], map[], {}, map[], [], map[])

  datatype Event =
    | Connect
    | Authorize(socket: nat, name: Name)
    | Reauthorize(socket: nat, name: Name)
    | EnterLock(socket: nat)
    | Notified(socket: nat)
    | OldClosed(socket: nat, closed: bool)
    | Abort(socket: nat)
    | SocketCloses(socket: nat)
    | DisconnectCallback(socket: nat)
    | TimerFires(timer: nat)
    | BotOnline(name: Name)
    | BotOffline(name: Name)
    | BotKnown(name: Name)
    | BotForgotten(name: Name)

  // ------------------------------------------------------------- the steps

  predicate InHandoff(l: Login) {
    l.Notifying? || l.Closing?
  }

  /** Can this event happen now?  A socket may authorize again when its login has ended, with the same name
      or another. */
  predicate Enabled(s: State, e: Event) {
    match e
    case Connect => true
    case Authorize(c, _) => c < |s.sockets| && s.sockets[c].login in {Idle, Failed} && s.sockets[c].username == None
    case Reauthorize(c, _) => c < |s.sockets| && s.sockets[c].login in {Bound, Failed} && s.sockets[c].username.Some?
    case EnterLock(c) => c < |s.sockets| && s.sockets[c].login.Queued? && s.sockets[c].login.name !in s.holder
    case Notified(c) => c < |s.sockets| && s.sockets[c].login.Notifying?
    case OldClosed(c, _) => c < |s.sockets| && s.sockets[c].login.Closing?
    case Abort(c) => c < |s.sockets| && InHandoff(s.sockets[c].login)
    case SocketCloses(c) => c < |s.sockets|
    case DisconnectCallback(c) => c < |s.sockets| && !s.sockets[c].open && !s.sockets[c].notified
    case TimerFires(t) => t < |s.timers| && s.timers[t].live
    case BotOnline(n) => n !in s.users
    case BotOffline(n) => n in s.users && s.users[n] == Bot
    case BotKnown(_) => true
    case BotForgotten(_) => true
  }

  function SetLogin(s: State, c: nat, l: Login): State
    requires c < |s.sockets|
  {
    s.(sockets := s.sockets[c := s.sockets[c].(login := l)])
  }

  /** Cancels the debounce registered for a name, if there is one. */
  function CancelPending(s: State, name: Name): State {
    if name in s.pending && s.pending[name] < |s.timers| then
      var t := s.pending[name];
      s.(timers := s.timers[t := s.timers[t].(live := false)], pending := s.pending - {name})
    else s
  }

  /** A fresh login: a new user object bound to the socket. */
  function BindFresh(s: State, c: nat, name: Name): State
    requires c < |s.sockets|
  {
    s.(sockets := s.sockets[c := s.sockets[c].(username := Some(name), authenticated := true, login := Bound)],
       connection := s.connection + [c],
       users := s.users[name := Human(|s.connection|)])
  }

  /** The old socket loses the user: it is marked replaced, and the login goes on to notify and close it. */
  function StartHandoff(s: State, c: nat, name: Name, u: nat): State
    requires c < |s.sockets| && u < |s.connection| && s.connection[u] < |s.sockets|
  {
    var prior := s.connection[u];
    var s1 := s.(sockets := s.sockets[prior := s.sockets[prior].(replaced := true)], holder := s.holder[name := c]);
    SetLogin(s1, c, Notifying(name, u, prior))
  }

  /** The stretch from taking the login lock to the first await, or to the end of a fresh login. */
  function Enter(s: State, c: nat, name: Name): State
    requires c < |s.sockets|
  {
    var s1 := CancelPending(s, name);
    if name !in s1.users then BindFresh(s1, c, name)
    else match s1.users[name]
      case Bot =>
        // A bot the manager no longer knows cannot be taken offline: the login raises.
        if name in s1.bots then BindFresh(s1.(users := s1.users - {name}), c, name)
        else SetLogin(s1, c, Failed)
      case Human(u) =>
        if u < |s1.connection| && s1.connection[u] < |s1.sockets| then StartHandoff(s1, c, name, u) else s1
  }

  /** The stretch after the old socket's close: the new socket takes the user over. */
  function Rebind(s: State, c: nat, name: Name, u: nat, prior: nat, closed: bool): State
    requires c < |s.sockets|
  {
    if prior < |s.sockets| && u < |s.connection| then
      var s1 := if closed then s.(sockets := s.sockets[prior := s.sockets[prior].(open := false)]) else s;
      s1.(sockets := s1.sockets[c := s1.sockets[c].(username := Some(name), authenticated := true, login := Bound)],
          connection := s1.connection[u := c],
          holder := s1.holder - {name})
    else s
  }

  function AddTimer(s: State, c: nat, name: Name): State {
    s.(timers := s.timers + [Timer(name, c, true)], pending := s.pending[name := |s.timers|])
  }

  /** The disconnect callback: debounce the cleanup unless the socket was replaced, never bound, or the
      user already lives on another socket. */
  function OnDisconnect(s: State, c: nat): State
    requires c < |s.sockets|
  {
    var s1 := s.(sockets := s.sockets[c := s.sockets[c].(notified := true)]);
    var socket := s1.sockets[c];
    if socket.replaced || socket.username.None? then s1
    else
      var name := socket.username.value;
      if name in s1.users && (s1.users[name].Bot? || !IsBoundTo(s1, s1.users[name].user, c)) then s1
      else AddTimer(s1, c, name)
  }

  predicate IsBoundTo(s: State, u: nat, c: nat) {
    u < |s.connection| && s.connection[u] == c
  }

  /** The cleanup after the grace period, with its second identity check. */
  function Cleanup(s: State, t: nat): State
    requires t < |s.timers|
  {
    var Timer(name, c, _) := s.timers[t];
    var s1 := s.(timers := s.timers[t := s.timers[t].(live := false)], pending := s.pending - {name});
    if name in s1.users && (s1.users[name].Bot? || !IsBoundTo(s1, s1.users[name].user, c)) then s1
    else s1.(users := s1.users - {name})
  }

  function Step(s: State, e: Event): State
    requires Enabled(s, e)
  {
    match e
    case Connect => s.(sockets := s.sockets + [Socket(None, false, false, true, false, Idle)])
    case Authorize(c, name) => SetLogin(s, c, Queued(name))
    case Reauthorize(c, name) => SetLogin(s, c, Queued(name))
    case EnterLock(c) => Enter(s, c, s.sockets[c].login.name)
    case Notified(c) =>
      var Notifying(name, u, prior) := s.sockets[c].login;
      SetLogin(s, c, Closing(name, u, prior))
    case OldClosed(c, closed) =>
      var Closing(name, u, prior) := s.sockets[c].login;
      Rebind(s, c, name, u, prior, closed)
    case Abort(c) => SetLogin(s.(holder := s.holder - {s.sockets[c].login.name}), c, Failed)
    case SocketCloses(c) => s.(sockets := s.sockets[c := s.sockets[c].(open := false)])
    case DisconnectCallback(c) => OnDisconnect(s, c)
    case TimerFires(t) => Cleanup(s, t)
    case BotOnline(n) => s.(users := s.users[n := Bot])
    case BotOffline(n) => s.(users := s.users - {n})
    case BotKnown(n) => s.(bots := s.bots + {n})
    case BotForgotten(n) => s.(bots := s.bots - {n})
  }

  /** The packets of a socket are acted on exactly when it is authenticated and not replaced. */
  predicate Accepts(s: State, c: nat) {
    c < |s.sockets| && s.sockets[c].authenticated && !s.sockets[c].replaced
  }

  /** The socket a username's user is bound to. */
  function BoundSocket(s: State, name: Name): Option<nat> {
    if name in s.users && s.users[name].Human? && s.users[name].user < |s.connection|
    then Some(s.connection[s.users[name].user]) else None
  }

  predicate ValidRun(s: State, es: seq<Event>)
    decreases |es|
  {
    es == [] || (Enabled(s, es[0]) && ValidRun(Step(s, es[0]), es[1..]))
  }

  function Run(s: State, es: seq<Event>): State
    requires ValidRun(s, es)
    decreases |es|
  {
    if es == [] then s else Run(Step(s, es[0]), es[1..])
  }

  /** A login for a name takes the session of socket c: it takes the lock while c is what the name is bound to. */
  predicate TakesFrom(s: State, e: Event, c: nat)
    requires Enabled(s, e)
  {
    e.EnterLock? && BoundSocket(s, s.sockets[e.socket].login.name) == Some(c)
  }

  /** Some login of a run takes the session of socket c. */
  predicate HandedOff(s: State, es: seq<Event>, c: nat)
    requires ValidRun(s, es)
    decreases |es|
  {
    es != [] && (TakesFrom(s, es[0], c) || HandedOff(Step(s, es[0]), es[1..], c))
  }
}
