/**
 The authentication manager (server/auth/auth.py): its methods, step by step, against AuthRuns.Step.
 Passwords are hashed elsewhere; of the user table, bans and password hashes are modelled.
 */
module Authentication {
  import opened Wrappers
  import A = AccessSessions
  import R = RefreshTokens
  import opened AuthRuns

  datatype Credentials = Credentials(
    username: User, access: Token, accessExpires: int, refresh: Token, refreshExpires: int)

  /** The expired entries of a session table, in order. */
  function Expired(ss: seq<A.Session>, now: int): seq<A.Session> {
    if ss == [] then []
    else (if ss[0].expiresAt <= now then [ss[0]] else []) + Expired(ss[1..], now)
  }

  lemma {:induction false} DroppingPassesHead(s: A.Session, ss: seq<A.Session>, dropped: seq<A.Session>)
    requires forall d :: d in dropped ==> d.token != s.token
    ensures A.WithoutAll([s] + ss, dropped) == [s] + A.WithoutAll(ss, dropped)
    decreases |dropped|
  {
    if dropped == [] {
    } else {
      assert dropped[0] in dropped;
      assert ([s] + ss)[1..] == ss;
      assert A.Without([s] + ss, dropped[0].token) == [s] + A.Without(ss, dropped[0].token);
      DroppingPassesHead(s, A.Without(ss, dropped[0].token), dropped[1..]);
    }
  }

  /** Deleting the expired entries one by one leaves the unexpired ones in their order. */
  lemma {:induction false} DroppingExpired(ss: seq<A.Session>, now: int)
    requires A.UniqueTokens(ss)
    ensures A.WithoutAll(ss, Expired(ss, now)) == A.Unexpired(ss, now)
  {
    if ss == [] {
    } else {
      A.UniqueTail(ss);
      DroppingExpired(ss[1..], now);
      var rest := Expired(ss[1..], now);
      if ss[0].expiresAt <= now {
        assert ([ss[0]] + rest)[1..] == rest;
      } else {
        forall d | d in rest ensures d.token != ss[0].token {
          ExpiredMembers(ss[1..], now, d);
        }
        assert ss == [ss[0]] + ss[1..] && Expired(ss, now) == rest;
        DroppingPassesHead(ss[0], ss[1..], rest);
      }
    }
  }

  lemma {:induction false} ExpiredMembers(ss: seq<A.Session>, now: int, s: A.Session)
    requires s in Expired(ss, now)
    ensures s in ss
  {
    if s !in Expired(ss[1..], now) {
      assert s == ss[0];
    } else {
      ExpiredMembers(ss[1..], now, s);
    }
  }

  /** Deleting a user's entries one by one leaves everyone else's in their order. */
  lemma {:induction false} DroppingUser(ss: seq<A.Session>, user: User)
    requires A.UniqueTokens(ss)
    ensures A.WithoutAll(ss, A.Of(ss, user)) == A.NotOf(ss, user)
  {
    if ss == [] {
    } else {
      A.UniqueTail(ss);
      DroppingUser(ss[1..], user);
      var rest := A.Of(ss[1..], user);
      if ss[0].username == user {
        assert ([ss[0]] + rest)[1..] == rest;
      } else {
        forall d | d in rest ensures d.token != ss[0].token {
          A.OfMembers(ss[1..], user, d);
        }
        assert ss == [ss[0]] + ss[1..] && A.Of(ss, user) == rest;
        DroppingPassesHead(ss[0], ss[1..], rest);
      }
    }
  }

  class AuthManager {
    // The database tables the manager works on.
    var accounts: map<User, bool>
    var records: map<Token, R.Record>
    var nextId: nat
    var passwords: map<User, string>
    // The manager's own table, in insertion order.
    var sessions: seq<A.Session>
    // Every access token issued so far.
    ghost var issued: map<Token, User>

    function Db(): R.Store
      reads this
    {
      R.Store(accounts, records, nextId)
    }

    ghost function State(): AuthState
      reads this
    {
      AuthState(Db(), sessions, issued)
    }

    /** A new server process over an existing database. */
    constructor (db: R.Store, hashes: map<User, string>, ghost earlier: map<Token, User>)
      requires R.Chained(db)
      ensures State() == AuthState(db, [], earlier) && Inv(State()) && passwords == hashes
    {
      accounts, records, nextId, passwords := db.accounts, db.records, db.nextId, hashes;
      sessions, issued := [], earlier;
    }

    // ------------------------------------------------------ access sessions

    method Drop(dropped: seq<A.Session>)
      modifies this`sessions
      ensures sessions == A.WithoutAll(old(sessions), dropped)
    {
      for i := 0 to |dropped|
        invariant A.WithoutAll(sessions, dropped[i..]) == A.WithoutAll(old(sessions), dropped)
      {
        assert dropped[i..][1..] == dropped[i + 1..];
        sessions := A.Without(sessions, dropped[i].token);
      }
    }

    method PruneExpiredSessions(now: int)
      requires A.UniqueTokens(sessions)
      modifies this`sessions
      ensures sessions == A.Unexpired(old(sessions), now)
    {
      DroppingExpired(sessions, now);
      Drop(Expired(sessions, now));
    }

    method CreateSession(user: User, ttl: int, now: int, token: Token) returns (expiresAt: int)
      requires Inv(State()) && token !in issued
      modifies this`sessions, this`issued
      ensures State() == OpenSession(old(State()), user, ttl, now, token)
      ensures State() == Step(old(State()), Timed(now, NewSession(user, ttl, token)))
      ensures Inv(State()) && expiresAt == now + ttl
      ensures A.Session(token, user, expiresAt) in sessions
    {
      hide R.Chained, SessionsIssued, A.UniqueTokens;
      StepKeepsInv(State(), Timed(now, NewSession(user, ttl, token)));
      expiresAt := now + ttl;
      PruneExpiredSessions(now);
      var userTokens := A.SortByExpiry(A.Of(sessions, user));
      A.SortSorts(A.Of(sessions, user));
      var excess := |userTokens| - (A.MAX_SESSIONS_PER_USER - 1);
      Drop(userTokens[..if excess > 0 then excess else 0]);
      sessions := sessions + [A.Session(token, user, expiresAt)];
      issued := issued[token := user];
    }

    method ValidateSession(token: Token, now: int) returns (user: Option<User>)
      requires Inv(State())
      modifies this`sessions
      ensures State() == Step(old(State()), Timed(now, CheckSession(token)))
      ensures Inv(State()) && user == A.Validated(old(sessions), token, now).user
    {
      StepKeepsInv(State(), Timed(now, CheckSession(token)));
      var entry := A.Find(sessions, token);
      if entry.None? {
        return None;
      }
      if entry.value.expiresAt <= now {
        sessions := A.Without(sessions, token);
        return None;
      }
      return Some(entry.value.username);
    }

    method InvalidateSession(token: Token, ghost now: int)
      requires Inv(State())
      modifies this`sessions
      ensures State() == Step(old(State()), Timed(now, EndSession(token))) && Inv(State())
    {
      StepKeepsInv(State(), Timed(now, EndSession(token)));
      sessions := A.Without(sessions, token);
    }

    method InvalidateUserSessions(user: User, ghost now: int)
      requires Inv(State())
      modifies this`sessions
      ensures State() == Step(old(State()), Timed(now, EndUserSessions(user))) && Inv(State())
    {
      StepKeepsInv(State(), Timed(now, EndUserSessions(user)));
      DroppingUser(sessions, user);
      Drop(A.Of(sessions, user));
    }

    // ------------------------------------------------------- refresh tokens

    method StoreRefreshToken(user: User, token: Token, expiresAt: int, now: int)
      modifies this`records, this`nextId
      ensures Db() == R.StoreToken(old(Db()), user, token, expiresAt, now)
    {
      records := records[token := R.Record(nextId, user, expiresAt, now, None, None)];
      nextId := nextId + 1;
    }

    method RevokeRefreshToken(token: Token, now: int, replacedBy: Option<Token>)
      modifies this`records
      ensures Db() == R.RevokeToken(old(Db()), token, now, replacedBy)
    {
      if token in records {
        records := records[token := records[token].(revokedAt := Some(now), replacedBy := replacedBy)];
      }
    }

    method CreateRefreshToken(user: User, ttl: int, now: int, token: Token) returns (expiresAt: int)
      requires Inv(State()) && token !in records
      modifies this`records, this`nextId
      ensures State() == Step(old(State()), Timed(now, NewRefresh(user, ttl, token)))
      ensures Inv(State()) && expiresAt == now + ttl
    {
      StepKeepsInv(State(), Timed(now, NewRefresh(user, ttl, token)));
      expiresAt := now + ttl;
      StoreRefreshToken(user, token, expiresAt, now);
    }

    method RevokeUserRefreshTokens(user: User, now: int)
      requires Inv(State())
      modifies this`records
      ensures Db() == R.RevokeUser(old(Db()), user, now)
      ensures State() == Step(old(State()), Timed(now, RevokeUserTokens(user))) && Inv(State())
    {
      StepKeepsInv(State(), Timed(now, RevokeUserTokens(user)));
      records := map t | t in records :: R.Revoked(records[t], user, now);
    }

    /** Hands the live successor of a just-rotated token out again, with a new access session; or nothing. */
    method ReplayRotationWithinGrace(record: R.Record, now: int, expected: Option<User>, ttl: int, access: Token,
                                     later: int)
      returns (replay: Option<Credentials>)
      requires Inv(State()) && access !in issued
      modifies this`sessions, this`issued
      ensures var successor := R.ReplaySuccessor(Db(), record, now, expected);
              if successor.Some?
              then && State() == OpenSession(old(State()), record.username, ttl, later, access)
                   && Inv(State())
                   && replay == Some(Credentials(record.username, access, later + ttl, successor.value,
                                                 records[successor.value].expiresAt))
              else replay == None && State() == old(State())
    {
      hide R.Chained, Inv;
      if record.revokedAt.None? || now - record.revokedAt.value > R.REUSE_GRACE_SECONDS {
        return None;
      }
      var username := record.username;
      if expected.Some? && expected.value != username {
        return None;
      }
      if record.replacedBy.None? || record.replacedBy.value !in records {
        return None;
      }
      var successor := records[record.replacedBy.value];
      if successor.replacedBy.Some? || successor.revokedAt.Some? {
        return None;
      }
      if successor.expiresAt <= now {
        return None;
      }
      if username !in accounts || accounts[username] {
        return None;
      }
      var accessExpires := CreateSession(username, ttl, later, access);
      replay := Some(Credentials(username, access, accessExpires, record.replacedBy.value, successor.expiresAt));
    }

    /** Presenting a refresh token, with tokens generated for the case that it succeeds. */
    method RefreshSession(token: Token, accessTtl: int, refreshTtl: int, expected: Option<User>, now: int,
                          access: Token, refresh: Token, later: int)
      returns (credentials: Option<Credentials>)
      requires Inv(State()) && access !in issued && refresh !in records
      modifies this`sessions, this`issued, this`records, this`nextId
      ensures var t := Timed(now, Refresh(token, accessTtl, refreshTtl, expected, access, refresh, later));
              && State() == Step(old(State()), t)
              && Inv(State())
              && credentials == match Presented(old(State()), t).grant
                                case None => None
                                case Some(g) =>
                                  Some(Credentials(g.username, access, later + accessTtl, g.token, g.expiresAt))
    {
      hide R.Chained, R.RevokeUser, R.StoreToken, R.RevokeToken, Inv, A.Created, Step, OpenSession;
      ghost var t := Timed(now, Refresh(token, accessTtl, refreshTtl, expected, access, refresh, later));
      StepKeepsInv(State(), t);
      PresentKeepsInv(State(), t);
      RefreshStep(State(), t);
      if token !in records {
        return None;
      }
      var record := records[token];
      var username := record.username;
      if username !in accounts {
        return None;
      }
      if record.replacedBy.Some? {
        var replay := ReplayRotationWithinGrace(record, now, expected, accessTtl, access, later);
        if replay.Some? {
          return replay;
        }
        RevokeUserRefreshTokens(username, now);
        return None;
      }
      if record.revokedAt.Some? {
        RevokeUserRefreshTokens(username, now);
        return None;
      }
      if record.expiresAt <= now {
        RevokeRefreshToken(token, now, None);
        return None;
      }
      if accounts[username] {
        return None;
      }
      if expected.Some? && expected.value != username {
        return None;
      }
      var refreshExpires := RotateRefreshToken(token, username, refreshTtl, now, refresh);
      var accessExpires := CreateSession(username, accessTtl, later, access);
      credentials := Some(Credentials(username, access, accessExpires, refresh, refreshExpires));
    }

    /** Stores the replacement of a live token, then revokes the token in its favour. */
    method RotateRefreshToken(token: Token, user: User, ttl: int, now: int, refresh: Token) returns (expiresAt: int)
      requires token in records && records[token].username == user
      modifies this`records, this`nextId
      ensures Db() == R.Rotated(old(Db()), token, ttl, now, refresh) && expiresAt == now + ttl
    {
      expiresAt := now + ttl;
      StoreRefreshToken(user, refresh, expiresAt, now);
      RevokeRefreshToken(token, now, Some(refresh));
    }

    // ------------------------------------------------------- password reset

    /** What a reset does before it waits for the password hash. */
    method BeginReset(user: User) returns (known: bool)
      ensures known <==> user in accounts
    {
      known := user in accounts;
    }

    method UpdateUserPassword(user: User, hash: string)
      modifies this`passwords
      ensures passwords == if user in old(passwords) then old(passwords)[user := hash] else old(passwords)
    {
      if user in passwords {
        passwords := passwords[user := hash];
      }
    }

    /** What it does after the wait: an account that is still there gets the new hash. */
    method FinishReset(user: User, hash: string, now: int)
      requires Inv(State())
      modifies this`sessions, this`records, this`passwords
      ensures State() == Step(old(State()), Timed(now, Event.FinishReset(user))) && Inv(State())
      ensures passwords == if user in old(passwords) then old(passwords)[user := hash] else old(passwords)
    {
      UpdateUserPassword(user, hash);
      InvalidateUserSessions(user, now);
      RevokeUserRefreshTokens(user, now);
    }
  }
}
