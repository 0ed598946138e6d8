/**
 Refresh-token records and their rotation chains (server/auth/auth.py, over the refresh_tokens table of
 server/persistence/database.py).  Usernames are opaque and compared exactly; generated tokens are fresh.
 */
module RefreshTokens {
  import opened Wrappers

  type Token = string
  type User = string

  /** A stored record.  `id` is the table's autoincrement row id. */
  datatype Record = Record(
    id: nat,
    username: User,
    expiresAt: int,
    createdAt: int,
    revokedAt: Option<int>,
    replacedBy: Option<Token>)

  /** The token table, and the accounts: whether each existing user is banned. */
  datatype Store = Store(accounts: map<User, bool>, records: map<Token, Record>, nextId: nat)

  const REUSE_GRACE_SECONDS := 30

  // --------------------------------------------------- database operations

  function StoreToken(db: Store, user: User, token: Token, expiresAt: int, now: int): Store {
    db.(records := db.records[token := Record(db.nextId, user, expiresAt, now, None, None)], nextId := db.nextId + 1)
  }

  function RevokeToken(db: Store, token: Token, now: int, replacedBy: Option<Token>): Store {
    if token in db.records then
      db.(records := db.records[token := db.records[token].(revokedAt := Some(now), replacedBy := replacedBy)])
    else db
  }

  function Revoked(r: Record, user: User, now: int): Record {
    if r.username == user && r.revokedAt.None? then r.(revokedAt := Some(now)) else r
  }

  function RevokeUser(db: Store, user: User, now: int): Store {
    db.(records := map t | t in db.records :: Revoked(db.records[t], user, now))
  }

  // -------------------------------------------------------------- decisions

  /** May this user be given credentials? */
  predicate InGoodStanding(db: Store, user: User) {
    user in db.accounts && !db.accounts[user]
  }

  predicate HintMatches(expected: Option<User>, user: User) {
    expected.None? || expected.value == user
  }

  /** The successor to hand out again when a just-rotated token is presented a second time. */
  function ReplaySuccessor(db: Store, r: Record, now: int, expected: Option<User>): Option<Token> {
    if r.revokedAt.None? || now - r.revokedAt.value > REUSE_GRACE_SECONDS then None
    else if !HintMatches(expected, r.username) then None
    else if r.replacedBy.None? || r.replacedBy.value !in db.records then None
    else
      var successor := db.records[r.replacedBy.value];
      if successor.replacedBy.Some? || successor.revokedAt.Some? then None
      else if successor.expiresAt <= now then None
      else if !InGoodStanding(db, r.username) then None
      else r.replacedBy
  }

  datatype Verdict = Refuse | RefuseAndRevokeUser | RefuseAndExpire | Replay(successor: Token) | Rotate

  /** What presenting a refresh token leads to. */
  function Judge(db: Store, token: Token, now: int, expected: Option<User>): Verdict {
    if token !in db.records || db.records[token].username !in db.accounts then Refuse
    else
      var r := db.records[token];
      if r.replacedBy.Some? then
        var successor := ReplaySuccessor(db, r, now, expected);
        if successor.Some? then Replay(successor.value) else RefuseAndRevokeUser
      else if r.revokedAt.Some? then RefuseAndRevokeUser
      else if r.expiresAt <= now then RefuseAndExpire
      else if !InGoodStanding(db, r.username) || !HintMatches(expected, r.username) then Refuse
      else Rotate
  }

  datatype Grant = Grant(username: User, token: Token, expiresAt: int)

  datatype Outcome = Outcome(store: Store, grant: Option<Grant>)

  /** Presenting a refresh token: the store afterwards, and the refresh half of the credentials. */
  function Present(db: Store, token: Token, ttl: int, now: int, expected: Option<User>, minted: Token): Outcome {
    match Judge(db, token, now, expected)
    case Refuse => Outcome(db, None)
    case RefuseAndRevokeUser => Outcome(RevokeUser(db, db.records[token].username, now), None)
    case RefuseAndExpire => Outcome(RevokeToken(db, token, now, None), None)
    case Replay(successor) =>
      Outcome(db, Some(Grant(db.records[token].username, successor, db.records[successor].expiresAt)))
    case Rotate =>
      var user := db.records[token].username;
      Outcome(RevokeToken(StoreToken(db, user, minted, now + ttl, now), token, now, Some(minted)),
              Some(Grant(user, minted, now + ttl)))
  }

  // ------------------------------------------------------------------ chains

  /** The links form disjoint single paths: they go to a later token of the same user, no token has two
      predecessors, and a token that was replaced is revoked. */
  ghost predicate Chained(db: Store) {
    && (forall t :: t in db.records ==> db.records[t].id < db.nextId)
    && (forall t :: t in db.records && db.records[t].replacedBy.Some? ==>
          var next := db.records[t].replacedBy.value;
          && next in db.records
          && db.records[next].username == db.records[t].username
          && db.records[t].id < db.records[next].id
          && db.records[t].revokedAt.Some?)
    && (forall t, u ::
          (t in db.records && u in db.records && db.records[t].replacedBy.Some?
           && db.records[t].replacedBy == db.records[u].replacedBy) ==> t == u)
  }

  /** The end of a token's chain. */
  ghost function Tip(db: Store, t: Token): (tip: Token)
    requires Chained(db) && t in db.records
    ensures tip in db.records && db.records[tip].replacedBy == None
    ensures db.records[tip].username == db.records[t].username
    decreases db.nextId - db.records[t].id
  {
    if db.records[t].replacedBy.None? then t else Tip(db, db.records[t].replacedBy.value)
  }

  /** Two tokens of one login family. */
  ghost predicate SameFamily(db: Store, t: Token, u: Token)
    requires Chained(db) && t in db.records && u in db.records
  {
    Tip(db, t) == Tip(db, u)
  }

  predicate Live(db: Store, t: Token, now: int) {
    t in db.records && db.records[t].revokedAt.None? && db.records[t].expiresAt > now
  }

  /** Tokens that are all revoked, and whose chains stay among them. */
  ghost predicate Dead(db: Store, dead: set<Token>) {
    forall t :: t in dead ==>
      && t in db.records && db.records[t].revokedAt.Some?
      && (db.records[t].replacedBy.Some? ==> db.records[t].replacedBy.value in dead)
  }

  /** What no operation ever takes back: records stay, their owner and expiry are fixed, a revocation is
      final, and so is a replacement. */
  ghost predicate Advances(db: Store, db': Store) {
    forall t :: t in db.records ==>
      && t in db'.records
      && db'.records[t].id == db.records[t].id
      && db'.records[t].username == db.records[t].username
      && db'.records[t].expiresAt == db.records[t].expiresAt
      && (db.records[t].revokedAt.Some? ==> db'.records[t] == db.records[t])
  }

  // ------------------------------------------- what single operations keep

  lemma StoreKeepsChains(db: Store, user: User, token: Token, expiresAt: int, now: int)
    requires Chained(db) && token !in db.records
    ensures var db' := StoreToken(db, user, token, expiresAt, now);
            Chained(db') && Advances(db, db') && Tip(db', token) == token
  {
    StoreIsChained(db, user, token, expiresAt, now);
    StoreAdvances(db, user, token, expiresAt, now);
    hide Chained, Advances;
  }

  lemma StoreAdvances(db: Store, user: User, token: Token, expiresAt: int, now: int)
    requires token !in db.records
    ensures Advances(db, StoreToken(db, user, token, expiresAt, now))
  {
  }

  lemma StoreIsChained(db: Store, user: User, token: Token, expiresAt: int, now: int)
    requires Chained(db) && token !in db.records
    ensures Chained(StoreToken(db, user, token, expiresAt, now))
  {
  }

  /** Storing a token starts a family of its own. */
  lemma {:induction false} StoreKeepsTips(db: Store, user: User, token: Token, expiresAt: int, now: int, t: Token)
    requires Chained(db) && token !in db.records && t in db.records
    requires Chained(StoreToken(db, user, token, expiresAt, now))
    ensures Tip(StoreToken(db, user, token, expiresAt, now), t) == Tip(db, t)
    decreases db.nextId - db.records[t].id
  {
    if db.records[t].replacedBy.Some? {
      StoreKeepsTips(db, user, token, expiresAt, now, db.records[t].replacedBy.value);
    }
  }

  lemma RevokeUserKeepsChains(db: Store, user: User, now: int)
    requires Chained(db)
    ensures Chained(RevokeUser(db, user, now)) && Advances(db, RevokeUser(db, user, now))
  {
    RevokeUserIsChained(db, user, now);
    hide Chained;
  }

  lemma RevokeUserIsChained(db: Store, user: User, now: int)
    requires Chained(db)
    ensures Chained(RevokeUser(db, user, now))
  {
    var db' := RevokeUser(db, user, now);
    assert db'.records.Keys == db.records.Keys;
    forall t | t in db.records
      ensures && db'.records[t].id == db.records[t].id
              && db'.records[t].username == db.records[t].username
              && db'.records[t].replacedBy == db.records[t].replacedBy
              && (db.records[t].revokedAt.Some? ==> db'.records[t].revokedAt.Some?)
    {
    }
    hide RevokeUser;
  }

  lemma {:induction false} RevokeUserKeepsTips(db: Store, user: User, now: int, t: Token)
    requires Chained(db) && t in db.records && Chained(RevokeUser(db, user, now))
    ensures Tip(RevokeUser(db, user, now), t) == Tip(db, t)
    decreases db.nextId - db.records[t].id
  {
    var r := db.records[t];
    assert RevokeUser(db, user, now).records[t].replacedBy == r.replacedBy;
    if r.replacedBy.Some? {
      var next := r.replacedBy.value;
      assert next in db.records && r.id < db.records[next].id < db.nextId;
      hide Chained, RevokeUser;
      RevokeUserKeepsTips(db, user, now, next);
    }
  }

  /** Revoking an unrevoked token without a replacement leaves every chain as it was. */
  lemma ExpireKeepsChains(db: Store, token: Token, now: int)
    requires Chained(db) && token in db.records && db.records[token].revokedAt.None?
    ensures Chained(RevokeToken(db, token, now, None)) && Advances(db, RevokeToken(db, token, now, None))
  {
  }

  lemma {:induction false} ExpireKeepsTips(db: Store, token: Token, now: int, t: Token)
    requires Chained(db) && token in db.records && db.records[token].revokedAt.None? && t in db.records
    requires Chained(RevokeToken(db, token, now, None))
    ensures Tip(RevokeToken(db, token, now, None), t) == Tip(db, t)
    decreases db.nextId - db.records[t].id
  {
    if db.records[t].replacedBy.Some? {
      ExpireKeepsTips(db, token, now, db.records[t].replacedBy.value);
    }
  }

  function Rotated(db: Store, token: Token, ttl: int, now: int, minted: Token): Store
    requires token in db.records
  {
    RevokeToken(StoreToken(db, db.records[token].username, minted, now + ttl, now), token, now, Some(minted))
  }

  lemma RotationKeepsChains(db: Store, token: Token, ttl: int, now: int, minted: Token)
    requires Chained(db) && token in db.records && db.records[token].revokedAt.None? && minted !in db.records
    ensures var db' := Rotated(db, token, ttl, now, minted);
            && Chained(db') && Advances(db, db')
            && minted in db'.records && db'.records[minted].replacedBy == None && db'.records[minted].revokedAt == None
            && db'.records[token].replacedBy == Some(minted)
  {
    RotationIsChained(db, token, ttl, now, minted);
    RotationAdvances(db, token, ttl, now, minted);
    hide Chained, Advances;
  }

  lemma RotationAdvances(db: Store, token: Token, ttl: int, now: int, minted: Token)
    requires token in db.records && db.records[token].revokedAt.None? && minted !in db.records
    ensures Advances(db, Rotated(db, token, ttl, now, minted))
  {
  }

  lemma RotationIsChained(db: Store, token: Token, ttl: int, now: int, minted: Token)
    requires Chained(db) && token in db.records && db.records[token].revokedAt.None? && minted !in db.records
    ensures Chained(Rotated(db, token, ttl, now, minted))
  {
    var stored := StoreToken(db, db.records[token].username, minted, now + ttl, now);
    StoreIsChained(db, db.records[token].username, minted, now + ttl, now);
    assert forall t :: t in stored.records ==> stored.records[t].replacedBy != Some(minted);
    LinkIsChained(stored, token, now, minted);
  }

  /** Linking a token to a later one of the same user that nothing links to yet. */
  lemma LinkIsChained(db: Store, token: Token, now: int, next: Token)
    requires Chained(db) && token in db.records && next in db.records
    requires db.records[token].username == db.records[next].username && db.records[token].id < db.records[next].id
    requires forall t :: t in db.records ==> db.records[t].replacedBy != Some(next)
    ensures Chained(RevokeToken(db, token, now, Some(next)))
  {
  }

  lemma RotationKeepsLinks(db: Store, token: Token, ttl: int, now: int, minted: Token, t: Token)
    requires t in db.records && token in db.records && minted !in db.records
    ensures var db' := Rotated(db, token, ttl, now, minted);
            && t in db'.records
            && db'.records[t].replacedBy == if t == token then Some(minted) else db.records[t].replacedBy
  {
  }

  lemma LinkIsLater(db: Store, t: Token)
    requires Chained(db) && t in db.records && db.records[t].replacedBy.Some?
    ensures db.records[t].replacedBy.value in db.records
    ensures db.records[t].id < db.records[db.records[t].replacedBy.value].id < db.nextId
    ensures db.records[t].revokedAt.Some?
  {
  }

  /** Rotation moves the tip of the presented token's family, and no other: families never merge or split. */
  lemma {:induction false} RotationMovesOneTip(db: Store, token: Token, ttl: int, now: int, minted: Token, t: Token)
    requires Chained(db) && token in db.records && db.records[token].revokedAt.None? && minted !in db.records
    requires t in db.records && Chained(Rotated(db, token, ttl, now, minted))
    ensures Tip(Rotated(db, token, ttl, now, minted), t) == if Tip(db, t) == token then minted else Tip(db, t)
    decreases db.nextId - db.records[t].id
  {
    hide Chained, Rotated, Advances;
    RotationKeepsChains(db, token, ttl, now, minted);
    RotationKeepsLinks(db, token, ttl, now, minted, t);
    if db.records[t].replacedBy.Some? {
      LinkIsLater(db, t);
      RotationMovesOneTip(db, token, ttl, now, minted, db.records[t].replacedBy.value);
    }
  }

  // ------------------------------------------------------------ main results

  /** Presenting a token, whatever comes of it, keeps the chains and takes nothing back. */
  lemma PresentKeepsChains(db: Store, token: Token, ttl: int, now: int, expected: Option<User>, minted: Token)
    requires Chained(db) && minted !in db.records
    ensures var db' := Present(db, token, ttl, now, expected, minted).store;
            Chained(db') && Advances(db, db')
  {
    match Judge(db, token, now, expected)
    case RefuseAndRevokeUser => RevokeUserKeepsChains(db, db.records[token].username, now);
    case RefuseAndExpire => ExpireKeepsChains(db, token, now);
    case Rotate => RotationKeepsChains(db, token, ttl, now, minted);
    case _ =>
  }

  /** Presenting a token neither merges nor splits families. */
  lemma PresentKeepsFamilies(db: Store, token: Token, ttl: int, now: int, expected: Option<User>, minted: Token,
                             t: Token, u: Token)
    requires Chained(db) && minted !in db.records && t in db.records && u in db.records
    ensures var db' := Present(db, token, ttl, now, expected, minted).store;
            && Chained(db') && t in db'.records && u in db'.records
            && (SameFamily(db', t, u) <==> SameFamily(db, t, u))
  {
    PresentKeepsChains(db, token, ttl, now, expected, minted);
    match Judge(db, token, now, expected)
    case RefuseAndRevokeUser =>
      RevokeUserKeepsTips(db, db.records[token].username, now, t);
      RevokeUserKeepsTips(db, db.records[token].username, now, u);
    case RefuseAndExpire =>
      ExpireKeepsTips(db, token, now, t);
      ExpireKeepsTips(db, token, now, u);
    case Rotate =>
      RotationMovesOneTip(db, token, ttl, now, minted, t);
      RotationMovesOneTip(db, token, ttl, now, minted, u);
    case _ =>
  }

  /** A family has at most one live token, and it is the family's tip. */
  lemma AtMostOneLive(db: Store, t: Token, u: Token, now: int)
    requires Chained(db) && t in db.records && u in db.records && SameFamily(db, t, u)
    ensures Live(db, t, now) ==> Tip(db, t) == t
    ensures Live(db, t, now) && Live(db, u, now) ==> t == u
  {
  }

  /** A grant names the presented token's owner, who exists, is not banned and matches the hint. */
  lemma GrantGoesToOwner(db: Store, token: Token, ttl: int, now: int, expected: Option<User>, minted: Token)
    ensures var o := Present(db, token, ttl, now, expected, minted);
            o.grant.Some? ==>
              && token in db.records
              && o.grant.value.username == db.records[token].username
              && InGoodStanding(db, o.grant.value.username)
              && HintMatches(expected, o.grant.value.username)
  {
  }

  /** Every successful presentation, rotation or replay, hands out exactly the live tip of the presented
      token's family. */
  lemma GrantIsLiveTip(db: Store, token: Token, ttl: int, now: int, expected: Option<User>, minted: Token)
    requires Chained(db) && minted !in db.records && ttl > 0
    ensures var o := Present(db, token, ttl, now, expected, minted);
            o.grant.Some? ==>
              && token in o.store.records && Chained(o.store)
              && o.grant.value.token == Tip(o.store, token)
              && Live(o.store, o.grant.value.token, now)
              && o.grant.value.expiresAt == o.store.records[o.grant.value.token].expiresAt
  {
    match Judge(db, token, now, expected)
    case Rotate =>
      RotationKeepsChains(db, token, ttl, now, minted);
      RotationMovesOneTip(db, token, ttl, now, minted, token);
      hide Chained;
    case Replay(successor) =>
      ReplayFindsTip(db, token, now, expected);
      hide Chained;
    case _ =>
  }

  lemma ReplayFindsTip(db: Store, token: Token, now: int, expected: Option<User>)
    requires Chained(db) && Judge(db, token, now, expected).Replay?
    ensures var successor := Judge(db, token, now, expected).successor;
            Tip(db, token) == successor && Live(db, successor, now)
  {
  }

  /** Rotation happens exactly to a live token of a user in good standing whose hint matches; within the
      grace window its re-presentation is answered from the same successor without touching the store. */
  lemma ReplayIsIdempotent(db: Store, token: Token, ttl: int, now: int, expected: Option<User>, minted: Token,
                           later: int, hint: Option<User>, ttl': int, minted': Token)
    requires Chained(db) && minted !in db.records && token in db.records
    requires Judge(db, token, now, expected) == Rotate
    requires now <= later <= now + REUSE_GRACE_SECONDS && later < now + ttl
    requires HintMatches(hint, db.records[token].username)
    ensures var first := Present(db, token, ttl, now, expected, minted);
            Present(first.store, token, ttl', later, hint, minted') == first
  {
    RotationKeepsChains(db, token, ttl, now, minted);
  }

  /** The theft response fires exactly for a known token of an existing user that was revoked without
      being rotated, or rotated and is not replayable now. */
  lemma TheftResponseIff(db: Store, token: Token, now: int, expected: Option<User>)
    requires Chained(db)
    ensures Judge(db, token, now, expected) == RefuseAndRevokeUser <==>
              && token in db.records && db.records[token].username in db.accounts
              && db.records[token].revokedAt.Some?
              && !(&& db.records[token].replacedBy.Some?
                   && now - db.records[token].revokedAt.value <= REUSE_GRACE_SECONDS
                   && HintMatches(expected, db.records[token].username)
                   && Live(db, db.records[token].replacedBy.value, now)
                   && InGoodStanding(db, db.records[token].username))
  {
  }

  /** A token two or more rotations old is refused and revokes everything its owner holds. */
  lemma OldTokenTriggersTheftResponse(db: Store, token: Token, ttl: int, now: int, expected: Option<User>,
                                      minted: Token)
    requires Chained(db) && token in db.records && db.records[token].username in db.accounts
    requires db.records[token].replacedBy.Some?
    requires db.records[db.records[token].replacedBy.value].replacedBy.Some?
    ensures var o := Present(db, token, ttl, now, expected, minted);
            o.grant == None && Dead(o.store, TokensOf(db, db.records[token].username))
  {
    TheftResponseIff(db, token, now, expected);
    RevokeUserKills(db, db.records[token].username, now);
  }

  /** Every token a user was ever issued. */
  function TokensOf(db: Store, user: User): set<Token> {
    set t | t in db.records && db.records[t].username == user
  }

  /** Revoking a user's tokens kills all of them. */
  lemma RevokeUserKills(db: Store, user: User, now: int)
    requires Chained(db)
    ensures Dead(RevokeUser(db, user, now), TokensOf(db, user))
  {
  }

  /** A dead token never yields credentials. */
  lemma DeadYieldsNothing(db: Store, dead: set<Token>, token: Token, ttl: int, now: int, expected: Option<User>,
                          minted: Token)
    requires Dead(db, dead) && token in dead
    ensures Present(db, token, ttl, now, expected, minted).grant == None
  {
  }

  /** The dead stay dead whatever advances. */
  lemma DeadStayDead(db: Store, db': Store, dead: set<Token>)
    requires Dead(db, dead) && Advances(db, db')
    ensures Dead(db', dead)
  {
  }

  /** A wrong hint never rotates a token, and leaves every token alone exactly when the presented one is
      unknown, ownerless, or neither revoked nor expired: the promise that a wrong-hint request cannot
      burn anything fails for an already rotated token, even inside the grace window. */
  lemma WrongHintTouchesNothingIff(db: Store, token: Token, ttl: int, now: int, expected: Option<User>, minted: Token)
    requires Chained(db) && token in db.records && !HintMatches(expected, db.records[token].username)
    ensures var o := Present(db, token, ttl, now, expected, minted);
            && o.grant == None
            && (o.store == db <==>
                  || db.records[token].username !in db.accounts
                  || (if db.records[token].revokedAt.Some?
                      then forall t :: t in TokensOf(db, db.records[token].username) ==> db.records[t].revokedAt.Some?
                      else db.records[token].expiresAt > now))
  {
    var user := db.records[token].username;
    if user in db.accounts && db.records[token].revokedAt.Some? {
      var o := Present(db, token, ttl, now, expected, minted);
      assert o.store == RevokeUser(db, user, now);
      if forall t :: t in TokensOf(db, user) ==> db.records[t].revokedAt.Some? {
        assert o.store.records == db.records;
      } else {
        var t :| t in TokensOf(db, user) && db.records[t].revokedAt.None?;
        assert o.store.records[t] != db.records[t];
      }
    }
  }

  // ------------------------------------- who is answered, field by field

  /** Unrevoked, not replaced and unexpired. */
  predicate Fresh(r: Record, now: int) {
    r.replacedBy == None && r.revokedAt == None && r.expiresAt > now
  }

  /** Credentials are given exactly to the owner of a known token who has an account, is not banned and is the one
      the caller expects, if the caller expects anyone: for a fresh token, and for one that was rotated at most 30
      seconds ago to a successor that is fresh. */
  lemma GrantedIff(db: Store, token: Token, ttl: int, now: int, expected: Option<User>, minted: Token)
    ensures Present(db, token, ttl, now, expected, minted).grant.Some? <==>
              && token in db.records
              && db.records[token].username in db.accounts && db.accounts[db.records[token].username] == false
              && (expected == None || expected == Some(db.records[token].username))
              && (|| Fresh(db.records[token], now)
                  || (&& db.records[token].replacedBy.Some? && db.records[token].revokedAt.Some?
                      && now - db.records[token].revokedAt.value <= 30
                      && db.records[token].replacedBy.value in db.records
                      && Fresh(db.records[db.records[token].replacedBy.value], now)))
  {
  }

  /** What is given: a fresh token is answered with the newly minted one, a rotated one with its successor. */
  lemma GrantIs(db: Store, token: Token, ttl: int, now: int, expected: Option<User>, minted: Token)
    requires Present(db, token, ttl, now, expected, minted).grant.Some?
    ensures token in db.records
    ensures var g := Present(db, token, ttl, now, expected, minted).grant.value;
            var r := db.records[token];
            && g.username == r.username
            && (if Fresh(r, now) then g.token == minted && g.expiresAt == now + ttl
                else && r.replacedBy == Some(g.token) && g.token in db.records
                     && g.expiresAt == db.records[g.token].expiresAt)
  {
  }

  /** What a refused presentation does to each record: a revoked token of an existing user costs all of the
      user's tokens, an expired one is revoked itself, and nothing else changes. */
  lemma RefusalTouches(db: Store, token: Token, ttl: int, now: int, expected: Option<User>, minted: Token, t: Token)
    requires Chained(db) && Present(db, token, ttl, now, expected, minted).grant.None?
    ensures var db' := Present(db, token, ttl, now, expected, minted).store;
            && db'.accounts == db.accounts && (t in db'.records <==> t in db.records)
            && (t in db.records ==>
                  db'.records[t]
                  == if && token in db.records && db.records[token].username in db.accounts
                        && db.records[t].revokedAt == None
                        && (if db.records[token].revokedAt.Some?
                            then db.records[t].username == db.records[token].username
                            else t == token && db.records[token].expiresAt <= now)
                     then db.records[t].(revokedAt := Some(now)) else db.records[t])
  {
  }
}
