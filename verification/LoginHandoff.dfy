/**
 The login and disconnect handlers of server/core/server.py as the server runs them, one method for
 each stretch between awaits, updating the server's tables in place.  Each method is one step of
 HandoffProtocol and keeps its invariant.
 */
module LoginHandoff {
  import opened Wrappers
  import opened HandoffProtocol
  import opened HandoffTheorems

  class LoginServer {
    var sockets: seq<Socket>
    var connection: seq<nat>
    var users: map<Name, Owner>
    var bots: set<Name>
    var loginLocks: map<Name, nat>
    var timers: seq<Timer>
    var pendingDisconnects: map<Name, nat>

    ghost function Snapshot(): State reads this {
      State(sockets, connection, users, bots, loginLocks, timers, pendingDisconnects)
    }

    constructor ()
      ensures Snapshot() == START && Inv(Snapshot())
    {
      sockets, connection, users, bots := [], [], map[], {};
      loginLocks, timers, pendingDisconnects := map[], [], map[];
      new;
      StartIsSafe();
    }

    /** Cancels a pending disconnect debounce (the user is reconnecting). */
    method CancelDebounce(name: Name)
      requires name in pendingDisconnects ==> pendingDisconnects[name] < |timers|
      modifies this`timers, this`pendingDisconnects
      ensures Snapshot() == CancelPending(old(Snapshot()), name)
    {
      if name in pendingDisconnects {
        var task := pendingDisconnects[name];
        pendingDisconnects := pendingDisconnects - {name};
        timers := timers[task := timers[task].(live := false)];
      }
    }

    /** Up to the first await of a handoff: the old socket is marked replaced. */
    method StartHandingOff(user: nat, client: nat, name: Name)
      requires client < |sockets| && user < |connection| && connection[user] < |sockets|
      modifies this`sockets, this`loginLocks
      ensures Snapshot() == StartHandoff(old(Snapshot()), client, name, user)
    {
      var oldClient := connection[user];
      sockets := sockets[oldClient := sockets[oldClient].(replaced := true)];
      sockets := sockets[client := sockets[client].(login := Notifying(name, user, oldClient))];
      loginLocks := loginLocks[name := client];
    }

    /** A fresh login creates its user object already bound. */
    method CreateUser(client: nat, name: Name)
      requires client < |sockets|
      modifies this`sockets, this`users, this`connection
      ensures Snapshot() == BindFresh(old(Snapshot()), client, name)
    {
      sockets := sockets[client := sockets[client].(username := Some(name), authenticated := true)];
      users := users[name := Human(|connection|)];
      connection := connection + [client];
      sockets := sockets[client := sockets[client].(login := Bound)];
    }

    /** From taking the login lock to the first await, or to the end of a fresh login. */
    method AttachOrUpdateUserLocked(client: nat)
      requires Inv(Snapshot()) && Enabled(Snapshot(), EnterLock(client))
      modifies this
      ensures Snapshot() == Step(old(Snapshot()), EnterLock(client))
      ensures Inv(Snapshot())
    {
      ghost var before := Snapshot();
      StepKeepsInv(before, EnterLock(client));
      var name := sockets[client].login.name;
      HumansAreBound(before, name);
      TimersAreRegistered(before, name);
      assert CancelPending(before, name).users == users && CancelPending(before, name).sockets == sockets
          && CancelPending(before, name).connection == connection && CancelPending(before, name).bots == bots;
      hide Inv, CancelPending, BindFresh, StartHandoff;
      CancelDebounce(name);
      if name in users && users[name].Bot? {
        if name !in bots {
          sockets := sockets[client := sockets[client].(login := Failed)];
          return;
        }
        users := users - {name};
      }
      if name in users {
        StartHandingOff(users[name].user, client, name);
      } else {
        CreateUser(client, name);
      }
    }

    /** After the old socket's close returned or failed: bind the new socket and give up the lock. */
    method FinishHandoff(client: nat, closed: bool)
      requires Inv(Snapshot()) && Enabled(Snapshot(), OldClosed(client, closed))
      modifies this
      ensures Snapshot() == Step(old(Snapshot()), OldClosed(client, closed))
      ensures Inv(Snapshot())
    {
      hide Inv, Step, Enabled;
      ghost var before := Snapshot();
      StepKeepsInv(before, OldClosed(client, closed));
      TakeOverStep(before, client, closed);
      var Closing(name, user, oldClient) := sockets[client].login;
      if closed {
        sockets := sockets[oldClient := sockets[oldClient].(open := false)];
      }
      BindClient(client, name, user);
      loginLocks := loginLocks - {name};
    }

    /** The user is bound to the new socket. */
    method BindClient(client: nat, name: Name, user: nat)
      requires client < |sockets| && user < |connection|
      modifies this`sockets, this`connection
      ensures sockets
           == old(sockets)[client :=
                old(sockets[client]).(username := Some(name), authenticated := true, login := Bound)]
      ensures connection == old(connection)[user := client]
    {
      sockets := sockets[client := sockets[client].(username := Some(name), authenticated := true)];
      connection := connection[user := client];
      sockets := sockets[client := sockets[client].(login := Bound)];
    }

    /** The websocket layer reports a closed socket. */
    method OnClientDisconnect(client: nat)
      requires Inv(Snapshot()) && Enabled(Snapshot(), DisconnectCallback(client))
      modifies this
      ensures Snapshot() == Step(old(Snapshot()), DisconnectCallback(client))
      ensures Inv(Snapshot())
    {
      hide Inv, Step;
      ghost var before := Snapshot();
      StepKeepsInv(before, DisconnectCallback(client));
      DisconnectStep(before, client);
      sockets := sockets[client := sockets[client].(notified := true)];
      if sockets[client].replaced {
        return;
      }
      if sockets[client].username.None? {
        return;
      }
      var username := sockets[client].username.value;
      if username in users && !OwnedBy(users[username], client) {
        return;
      }
      pendingDisconnects := pendingDisconnects[username := |timers|];
      timers := timers + [Timer(username, client, true)];
    }

    predicate OwnedBy(owner: Owner, client: nat) reads this {
      owner.Human? && owner.user < |connection| && connection[owner.user] == client
    }

    /** The cleanup task wakes up after its grace period. */
    method DelayedDisconnectCleanup(task: nat)
      requires Inv(Snapshot()) && Enabled(Snapshot(), TimerFires(task))
      modifies this
      ensures Snapshot() == Step(old(Snapshot()), TimerFires(task))
      ensures Inv(Snapshot())
    {
      ghost var before := Snapshot();
      StepKeepsInv(before, TimerFires(task));
      hide Inv;
      var Timer(username, client, _) := timers[task];
      timers := timers[task := timers[task].(live := false)];
      pendingDisconnects := pendingDisconnects - {username};
      if username in users && !OwnedBy(users[username], client) {
        return;
      }
      users := users - {username};
    }
  }

  lemma DisconnectStep(s: State, c: nat)
    requires Enabled(s, DisconnectCallback(c))
    ensures Step(s, DisconnectCallback(c)) == OnDisconnect(s, c)
  {
  }

  lemma TimersAreRegistered(s: State, name: Name)
    requires TimersSafe(s)
    ensures name in s.pending ==> s.pending[name] < |s.timers|
  {
  }

  lemma TakeOverStep(s: State, c: nat, closed: bool)
    requires Inv(s) && Enabled(s, OldClosed(c, closed))
    ensures c < |s.sockets| && s.sockets[c].login.Closing?
    ensures var Closing(name, u, prior) := s.sockets[c].login;
            && u < |s.connection| && prior < |s.sockets|
            && Step(s, OldClosed(c, closed)) == Rebind(s, c, name, u, prior, closed)
  {
    hide UsersBound, SocketsBound, TimersSafe;
  }
}
