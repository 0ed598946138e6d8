/**
 Names held by virtual bots during logins (server/core/server.py, with the manager of server/core/virtual_bots.py),
 and the identity checks that keep stale sockets from touching a user who lives elsewhere.
 */
module BotNames {
  import opened Wrappers
  import opened HandoffProtocol
  import opened HandoffTheorems
  import opened RepeatedLogins

  predicate HeldByBot(s: State, n: Name) {
    n in s.users && s.users[n].Bot?
  }

  /** A bot holds a name exactly from the moment it comes online on it until it goes offline, or a login for the
      name takes the lock while the manager knows the bot. */
  lemma BotHoldsIff(s: State, e: Event, n: Name)
    requires Inv(s) && Enabled(s, e)
    ensures HeldByBot(Step(s, e), n) <==>
              || e == BotOnline(n)
              || (HeldByBot(s, n) && e != BotOffline(n)
                  && !(e.EnterLock? && s.sockets[e.socket].login.name == n && n in s.bots))
  {
    hide Inv, Enter, Cleanup, OnDisconnect;
    match e {
      case EnterLock(c) => EnterAndBots(s, c, n);
      case DisconnectCallback(c) => CallbackKeepsUsers(s, c);
      case TimerFires(t) =>
        LiveTimerIsCurrent(s, t);
        CancelIs(s, s.timers[t].name);
      case _ =>
    }
  }

  lemma EnterAndBots(s: State, c: nat, n: Name)
    requires Inv(s) && Enabled(s, EnterLock(c))
    ensures HeldByBot(Step(s, EnterLock(c)), n) <==>
              HeldByBot(s, n) && !(s.sockets[c].login.name == n && n in s.bots)
  {
    hide Inv, Step, Enter, CancelPending, SocketsBound, HandoffsSafe, TimersSafe;
    InvParts(s);
    HumansAreBound(s, s.sockets[c].login.name);
    EnterIs(s, c);
  }

  lemma CallbackKeepsUsers(s: State, c: nat)
    requires c < |s.sockets|
    ensures OnDisconnect(s, c).users == s.users
  {
  }

  /** A login for a name a bot holds replaces the bot at once if the manager knows it, and fails otherwise, the bot
      staying. */
  lemma LoginMeetsBot(s: State, c: nat)
    requires Inv(s) && Enabled(s, EnterLock(c)) && HeldByBot(s, s.sockets[c].login.name)
    ensures var name := s.sockets[c].login.name;
            var s' := Step(s, EnterLock(c));
            if name in s.bots then BoundSocket(s', name) == Some(c) && s'.sockets[c].login == Bound
            else HeldByBot(s', name) && s'.sockets[c].login == Failed && !(name in s'.holder)
  {
    hide Inv, Step, Enter, CancelPending, SocketsBound, HandoffsSafe, TimersSafe;
    InvParts(s);
    EnterIs(s, c);
    CancelIs(s, s.sockets[c].login.name);
    UnlockedWhileQueued(s, c);
  }

  lemma UnlockedWhileQueued(s: State, c: nat)
    requires Enabled(s, EnterLock(c))
    ensures s.sockets[c].login.name !in s.holder
  {
  }

  /** The manager knows exactly the bots it got to know and did not forget. */
  lemma BotKnownIff(s: State, e: Event, n: Name)
    requires Inv(s) && Enabled(s, e)
    ensures n in Step(s, e).bots <==> e == BotKnown(n) || (n in s.bots && e != BotForgotten(n))
  {
    hide Inv, Enter, Cleanup, OnDisconnect;
    match e {
      case EnterLock(c) => EnterKeepsBots(s, c);
      case DisconnectCallback(c) => CallbackKeepsBots(s, c);
      case TimerFires(t) =>
        LiveTimerIsCurrent(s, t);
        CancelIs(s, s.timers[t].name);
      case _ =>
    }
  }

  lemma EnterKeepsBots(s: State, c: nat)
    requires Inv(s) && Enabled(s, EnterLock(c))
    ensures Step(s, EnterLock(c)).bots == s.bots
  {
    hide Inv, Step, Enter, CancelPending, SocketsBound, HandoffsSafe, TimersSafe;
    InvParts(s);
    HumansAreBound(s, s.sockets[c].login.name);
    EnterIs(s, c);
    CancelIs(s, s.sockets[c].login.name);
  }

  lemma CallbackKeepsBots(s: State, c: nat)
    requires c < |s.sockets|
    ensures OnDisconnect(s, c).bots == s.bots
  {
  }

  // ---------------------------------------------------- the identity checks

  /** In any state whatever, reachable or not: the callback of a socket sets up no cleanup for a name that a bot or
      a user on another socket holds, and no cleanup that waited for a socket removes such a name. */
  lemma StaleNeverTouches(s: State, c: nat, t: nat, n: Name)
    requires n in s.users && (s.users[n].Bot? || !IsBoundTo(s, s.users[n].user, c))
    ensures c < |s.sockets| && s.sockets[c].username == Some(n) ==>
              OnDisconnect(s, c).timers == s.timers && OnDisconnect(s, c).pending == s.pending
    ensures t < |s.timers| && s.timers[t].name == n && s.timers[t].socket == c ==> Cleanup(s, t).users == s.users
  {
  }
}
