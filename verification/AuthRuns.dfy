/**
 Runs of the authentication manager (server/auth/auth.py): any sequence of its operations, with the account
 table changing between them in any way.  Each operation happens at a time of its own.
 */
module AuthRuns {
  import opened Wrappers
  import A = AccessSessions
  import R = RefreshTokens

  type Token = string
  type User = string

  /** The token table, the access sessions, and every access token issued so far with its owner. */
  datatype AuthState = AuthState(db: R.Store, sessions: seq<A.Session>, issued: map<Token, User>)

  datatype Event =
    | NewSession(user: User, ttl: int, access: Token)
    | CheckSession(token: Token)
    | EndSession(token: Token)
    | EndUserSessions(user: User)
    | NewRefresh(user: User, ttl: int, refresh: Token)
    | RevokeUserTokens(user: User)
    | Refresh(token: Token, accessTtl: int, refreshTtl: int, expected: Option<User>, access: Token, refresh: Token,
              later: int)
    | FinishReset(user: User)
    | SetAccounts(accounts: map<User, bool>)
    | Restart

  /** An operation and the time it happens.  A refresh reads the clock again for its access session: `later`. */
  datatype Timed = Timed(now: int, event: Event)

  type Run = seq<Timed>

  /** Generated tokens were never issued before. */
  predicate Unused(s: AuthState, e: Event) {
    match e
    case NewSession(_, _, access) => access !in s.issued
    case NewRefresh(_, _, refresh) => refresh !in s.db.records
    case Refresh(_, _, _, _, access, refresh, _) => access !in s.issued && refresh !in s.db.records
    case _ => true
  }

  function OpenSession(s: AuthState, user: User, ttl: int, now: int, access: Token): AuthState {
    s.(sessions := A.Created(s.sessions, access, user, ttl, now), issued := s.issued[access := user])
  }

  function Presented(s: AuthState, t: Timed): R.Outcome
    requires t.event.Refresh?
  {
    R.Present(s.db, t.event.token, t.event.refreshTtl, t.now, t.event.expected, t.event.refresh)
  }

  function Step(s: AuthState, t: Timed): AuthState {
    match t.event
    case NewSession(user, ttl, access) => OpenSession(s, user, ttl, t.now, access)
    case CheckSession(token) => s.(sessions := A.Validated(s.sessions, token, t.now).sessions)
    case EndSession(token) => s.(sessions := A.Without(s.sessions, token))
    case EndUserSessions(user) => s.(sessions := A.NotOf(s.sessions, user))
    case NewRefresh(user, ttl, refresh) => s.(db := R.StoreToken(s.db, user, refresh, t.now + ttl, t.now))
    case RevokeUserTokens(user) => s.(db := R.RevokeUser(s.db, user, t.now))
    case Refresh(_, accessTtl, _, _, access, _, later) =>
      var o := Presented(s, t);
      var s' := s.(db := o.store);
      if o.grant.None? then s' else OpenSession(s', o.grant.value.username, accessTtl, later, access)
    case FinishReset(user) =>
      s.(sessions := A.NotOf(s.sessions, user), db := R.RevokeUser(s.db, user, t.now))
    case SetAccounts(accounts) => s.(db := s.db.(accounts := accounts))
    case Restart => s.(sessions := [])
  }

  function After(s: AuthState, run: Run): AuthState
    decreases |run|
  {
    if run == [] then s else After(Step(s, run[0]), run[1..])
  }

  predicate Feasible(s: AuthState, run: Run)
    decreases |run|
  {
    run == [] || (Unused(s, run[0].event) && Feasible(Step(s, run[0]), run[1..]))
  }

  // --------------------------------------------------------------- invariant

  ghost predicate SessionsIssued(s: AuthState) {
    forall x :: x in s.sessions ==> x.token in s.issued && s.issued[x.token] == x.username
  }

  ghost predicate Bounded(ss: seq<A.Session>) {
    forall u :: |A.Of(ss, u)| <= A.MAX_SESSIONS_PER_USER
  }

  ghost predicate Inv(s: AuthState) {
    R.Chained(s.db) && A.UniqueTokens(s.sessions) && SessionsIssued(s) && Bounded(s.sessions)
  }

  /** A table with fewer entries keeps everything the invariant says of it. */
  lemma ShrinkingIsFine(ss: seq<A.Session>, ss': seq<A.Session>)
    requires A.UniqueTokens(ss) && Bounded(ss) && A.UniqueTokens(ss')
    requires forall x :: x in ss' ==> x in ss
    ensures Bounded(ss')
  {
    forall u ensures |A.Of(ss', u)| <= A.MAX_SESSIONS_PER_USER {
      A.FewerOf(ss', ss, u);
    }
  }

  /** What checking or ending sessions leaves. */
  lemma DroppedMembers(s: AuthState, t: Timed)
    requires A.UniqueTokens(s.sessions)
    requires t.event.CheckSession? || t.event.EndSession? || t.event.EndUserSessions? || t.event.FinishReset?
             || t.event.Restart?
    ensures A.UniqueTokens(Step(s, t).sessions)
    ensures forall x :: x in Step(s, t).sessions ==> x in s.sessions
  {
    if t.event.CheckSession? || t.event.EndSession? {
      A.WithoutMembers(s.sessions, t.event.token);
    } else if !t.event.Restart? {
      A.NotOfUnique(s.sessions, t.event.user);
      forall x | x in A.NotOf(s.sessions, t.event.user) ensures x in s.sessions {
        A.OfMembers(s.sessions, t.event.user, x);
      }
    }
  }

  lemma OpenKeepsInv(s: AuthState, user: User, ttl: int, now: int, access: Token)
    requires Inv(s) && access !in s.issued
    ensures Inv(OpenSession(s, user, ttl, now, access))
  {
    var s' := OpenSession(s, user, ttl, now, access);
    forall x ensures x in s'.sessions ==> x in s.sessions || x == A.Session(access, user, now + ttl)
      ensures A.UniqueTokens(s'.sessions)
    {
      A.CreatedMembers(s.sessions, access, user, ttl, now, x);
    }
    OpenIsBounded(s.sessions, access, user, ttl, now);
  }

  lemma OpenIsBounded(ss: seq<A.Session>, access: Token, user: User, ttl: int, now: int)
    requires A.UniqueTokens(ss) && Bounded(ss) && forall x :: x in ss ==> x.token != access
    ensures Bounded(A.Created(ss, access, user, ttl, now))
  {
    var ss' := A.Created(ss, access, user, ttl, now);
    forall u ensures |A.Of(ss', u)| <= A.MAX_SESSIONS_PER_USER {
      if u == user {
        A.CreatedIsBounded(ss, access, user, ttl, now);
      } else {
        forall x | x in ss' && x.username == u ensures x in ss {
          A.CreatedMembers(ss, access, user, ttl, now, x);
        }
        A.CreatedMembers(ss, access, user, ttl, now, A.Session(access, user, now + ttl));
        hide A.Created;
        A.FewerOf(ss', ss, u);
      }
    }
  }

  /** Every operation keeps the chains and takes nothing back. */
  lemma StepKeepsChains(s: AuthState, t: Timed)
    requires R.Chained(s.db) && Unused(s, t.event)
    ensures R.Chained(Step(s, t).db) && R.Advances(s.db, Step(s, t).db)
  {
    match t.event
    case NewRefresh(user, ttl, refresh) => R.StoreKeepsChains(s.db, user, refresh, t.now + ttl, t.now);
    case RevokeUserTokens(user) => R.RevokeUserKeepsChains(s.db, user, t.now);
    case FinishReset(user) => R.RevokeUserKeepsChains(s.db, user, t.now);
    case Refresh(token, _, refreshTtl, expected, _, refresh, _) =>
      R.PresentKeepsChains(s.db, token, refreshTtl, t.now, expected, refresh);
    case _ =>
  }

  /** The invariant holds between presenting a token and opening the session it earns. */
  lemma PresentKeepsInv(s: AuthState, t: Timed)
    requires Inv(s) && t.event.Refresh? && Unused(s, t.event)
    ensures Inv(s.(db := Presented(s, t).store))
  {
    R.PresentKeepsChains(s.db, t.event.token, t.event.refreshTtl, t.now, t.event.expected, t.event.refresh);
  }

  /** What a refresh makes of the state. */
  lemma RefreshStep(s: AuthState, t: Timed)
    requires t.event.Refresh?
    ensures var o := Presented(s, t);
            Step(s, t) == if o.grant.None? then s.(db := o.store)
                          else OpenSession(s.(db := o.store), o.grant.value.username, t.event.accessTtl,
                                           t.event.later, t.event.access)
  {
  }

  lemma StepKeepsInv(s: AuthState, t: Timed)
    requires Inv(s) && Unused(s, t.event)
    ensures Inv(Step(s, t))
  {
    StepKeepsChains(s, t);
    match t.event
    case NewSession(user, ttl, access) => OpenKeepsInv(s, user, ttl, t.now, access);
    case Refresh(_, accessTtl, _, _, access, _, later) =>
      var o := Presented(s, t);
      if o.grant.Some? {
        OpenKeepsInv(s.(db := o.store), o.grant.value.username, accessTtl, later, access);
      }
    case NewRefresh(_, _, _) =>
    case RevokeUserTokens(_) =>
    case SetAccounts(_) =>
    case _ =>
      DroppedMembers(s, t);
      ShrinkingIsFine(s.sessions, Step(s, t).sessions);
  }

  /** On every run the chains stay chains, access tokens stay unique, and no user has more than ten sessions. */
  lemma {:induction false} RunKeepsInv(s: AuthState, run: Run)
    requires Inv(s) && Feasible(s, run)
    ensures Inv(After(s, run))
    decreases |run|
  {
    if run == [] {
    } else {
      StepKeepsInv(s, run[0]);
      RunKeepsInv(Step(s, run[0]), run[1..]);
    }
  }

  // ------------------------------------------------------------ main results

  lemma AdvancesTransitive(a: R.Store, b: R.Store, c: R.Store)
    requires R.Advances(a, b) && R.Advances(b, c)
    ensures R.Advances(a, c)
  {
  }

  /** No run takes back a record, an owner, an expiry, a revocation or a replacement. */
  lemma {:induction false} RunAdvances(s: AuthState, run: Run)
    requires R.Chained(s.db) && Feasible(s, run)
    ensures R.Chained(After(s, run).db) && R.Advances(s.db, After(s, run).db)
    decreases |run|
  {
    if run == [] {
    } else {
      StepKeepsChains(s, run[0]);
      RunAdvances(Step(s, run[0]), run[1..]);
      AdvancesTransitive(s.db, Step(s, run[0]).db, After(s, run).db);
    }
  }

  predicate Rotates(s: AuthState, t: Timed, token: Token) {
    && t.event.Refresh? && t.event.token == token
    && R.Judge(s.db, token, t.now, t.event.expected) == R.Rotate
  }

  /** On every run each token is rotated at most once. */
  lemma RotatedAtMostOnce(s: AuthState, token: Token, t: Timed, run: Run, again: Timed)
    requires R.Chained(s.db) && Rotates(s, t, token) && Unused(s, t.event) && Feasible(Step(s, t), run)
    ensures !Rotates(After(Step(s, t), run), again, token)
    ensures token in After(Step(s, t), run).db.records
    ensures After(Step(s, t), run).db.records[token].replacedBy == Some(t.event.refresh)
  {
    StepKeepsChains(s, t);
    var s0 := Step(s, t);
    assert s0.db == R.Rotated(s.db, token, t.event.refreshTtl, t.now, t.event.refresh);
    assert token in s0.db.records && s0.db.records[token].revokedAt.Some?
           && s0.db.records[token].replacedBy == Some(t.event.refresh);
    hide R.Chained, Step, R.Present;
    RunAdvances(s0, run);
  }

  /** On every run, a successful refresh hands out the one live token of the presented token's family, its
      tip, and opens an access session for its owner. */
  lemma RefreshHandsOutLiveTip(s: AuthState, run: Run, t: Timed, other: Token)
    requires Inv(s) && Feasible(s, run) && t.event.Refresh? && t.event.refreshTtl > 0
    requires Unused(After(s, run), t.event) && Presented(After(s, run), t).grant.Some?
    ensures var g := Presented(After(s, run), t).grant.value;
            var s' := Step(After(s, run), t);
            && R.Chained(s'.db) && t.event.token in s'.db.records
            && g.token == R.Tip(s'.db, t.event.token) && R.Live(s'.db, g.token, t.now)
            && (other in s'.db.records && R.SameFamily(s'.db, other, t.event.token) && R.Live(s'.db, other, t.now)
                ==> other == g.token)
            && g.username == s'.db.records[t.event.token].username
            && A.Session(t.event.access, g.username, t.event.later + t.event.accessTtl) in s'.sessions
  {
    hide Inv, R.Chained, Step, R.Present, R.Tip, R.SameFamily, After, Feasible, A.Created;
    var s0 := After(s, run);
    RunKeepsInv(s, run);
    PresentKeepsInv(s0, t);
    RefreshStep(s0, t);
    GrantIsLiveTip(s0, t);
    var db' := Presented(s0, t).store;
    if other in db'.records && R.SameFamily(db', other, t.event.token) && R.Live(db', other, t.now) {
      GrantedIsOnlyLive(db', other, t.event.token, t.now);
    }
    NewSessionIsThere(s0.(db := db'), t.event.access, Presented(s0, t).grant.value.username, t.event.accessTtl,
                      t.event.later);
  }

  lemma GrantIsLiveTip(s: AuthState, t: Timed)
    requires Inv(s) && t.event.Refresh? && t.event.refreshTtl > 0 && Unused(s, t.event) && Presented(s, t).grant.Some?
    ensures var o := Presented(s, t);
            && R.Chained(o.store) && t.event.token in o.store.records
            && o.grant.value.token == R.Tip(o.store, t.event.token) && R.Live(o.store, o.grant.value.token, t.now)
            && o.grant.value.username == o.store.records[t.event.token].username
  {
    R.GrantIsLiveTip(s.db, t.event.token, t.event.refreshTtl, t.now, t.event.expected, t.event.refresh);
    R.GrantGoesToOwner(s.db, t.event.token, t.event.refreshTtl, t.now, t.event.expected, t.event.refresh);
    R.PresentKeepsChains(s.db, t.event.token, t.event.refreshTtl, t.now, t.event.expected, t.event.refresh);
  }

  lemma GrantedIsOnlyLive(db: R.Store, other: Token, token: Token, now: int)
    requires R.Chained(db) && other in db.records && token in db.records && R.SameFamily(db, other, token)
    requires R.Live(db, other, now)
    ensures other == R.Tip(db, token)
  {
    R.AtMostOneLive(db, other, token, now);
  }

  lemma NewSessionIsThere(s: AuthState, access: Token, user: User, ttl: int, now: int)
    requires Inv(s) && access !in s.issued
    ensures A.Session(access, user, now + ttl) in OpenSession(s, user, ttl, now, access).sessions
  {
    A.CreatedMembers(s.sessions, access, user, ttl, now, A.Session(access, user, now + ttl));
  }

  lemma StepKeepsFamilies(s: AuthState, t: Timed, a: Token, b: Token)
    requires R.Chained(s.db) && Unused(s, t.event) && a in s.db.records && b in s.db.records
    ensures var db' := Step(s, t).db;
            R.Chained(db') && a in db'.records && b in db'.records
            && (R.SameFamily(db', a, b) <==> R.SameFamily(s.db, a, b))
  {
    StepKeepsChains(s, t);
    if t.event.Refresh? {
      hide R.Chained, R.Advances, R.SameFamily, R.Present, R.Tip;
      PresentKeepsFamilies(s, t, a, b);
    } else {
      hide R.Chained, Step, Unused, R.Tip;
      StepKeepsTip(s, t, a);
      StepKeepsTip(s, t, b);
    }
  }

  lemma PresentKeepsFamilies(s: AuthState, t: Timed, a: Token, b: Token)
    requires R.Chained(s.db) && t.event.Refresh? && Unused(s, t.event) && a in s.db.records && b in s.db.records
    ensures var db' := Presented(s, t).store;
            R.Chained(db') && a in db'.records && b in db'.records
            && (R.SameFamily(db', a, b) <==> R.SameFamily(s.db, a, b))
  {
    hide R.Chained, R.Advances, R.SameFamily, R.Present, R.Tip;
    R.PresentKeepsFamilies(s.db, t.event.token, t.event.refreshTtl, t.now, t.event.expected, t.event.refresh, a, b);
  }

  /** Only presenting a refresh token moves a tip. */
  lemma StepKeepsTip(s: AuthState, t: Timed, a: Token)
    requires R.Chained(s.db) && R.Chained(Step(s, t).db) && Unused(s, t.event) && !t.event.Refresh?
    requires a in s.db.records && a in Step(s, t).db.records
    ensures R.Tip(Step(s, t).db, a) == R.Tip(s.db, a)
  {
    hide R.Chained, R.Advances, R.Tip, R.RevokeUser, R.StoreToken;
    match t.event
    case NewRefresh(user, ttl, refresh) => R.StoreKeepsTips(s.db, user, refresh, t.now + ttl, t.now, a);
    case RevokeUserTokens(user) => R.RevokeUserKeepsTips(s.db, user, t.now, a);
    case FinishReset(user) => R.RevokeUserKeepsTips(s.db, user, t.now, a);
    case SetAccounts(accounts) => AccountsKeepTips(s.db, accounts, a);
    case _ =>
  }

  lemma {:induction false} AccountsKeepTips(db: R.Store, accounts: map<User, bool>, t: Token)
    requires R.Chained(db) && R.Chained(db.(accounts := accounts)) && t in db.records
    ensures R.Tip(db.(accounts := accounts), t) == R.Tip(db, t)
    decreases db.nextId - db.records[t].id
  {
    if db.records[t].replacedBy.Some? {
      AccountsKeepTips(db, accounts, db.records[t].replacedBy.value);
    }
  }

  /** Login families never merge and never split, on any run. */
  lemma {:induction false} FamiliesAreForever(s: AuthState, run: Run, a: Token, b: Token)
    requires R.Chained(s.db) && Feasible(s, run) && a in s.db.records && b in s.db.records
    ensures var db' := After(s, run).db;
            R.Chained(db') && a in db'.records && b in db'.records
            && (R.SameFamily(db', a, b) <==> R.SameFamily(s.db, a, b))
    decreases |run|
  {
    if run == [] {
    } else {
      StepKeepsFamilies(s, run[0], a, b);
      FamiliesAreForever(Step(s, run[0]), run[1..], a, b);
    }
  }

  /** Access tokens that were issued and are in the table no more. */
  ghost predicate Gone(s: AuthState, tokens: set<Token>) {
    forall k :: k in tokens ==> k in s.issued && forall x :: x in s.sessions ==> x.token != k
  }

  lemma StepKeepsGone(s: AuthState, t: Timed, tokens: set<Token>)
    requires Inv(s) && Unused(s, t.event) && Gone(s, tokens)
    ensures Gone(Step(s, t), tokens)
  {
    match t.event
    case NewSession(user, ttl, access) => OpenKeepsGone(s, user, ttl, t.now, access, tokens);
    case Refresh(_, accessTtl, _, _, access, _, later) =>
      var o := Presented(s, t);
      if o.grant.Some? {
        OpenKeepsGone(s.(db := o.store), o.grant.value.username, accessTtl, later, access, tokens);
      }
    case NewRefresh(_, _, _) =>
    case RevokeUserTokens(_) =>
    case SetAccounts(_) =>
    case _ => DroppedMembers(s, t);
  }

  lemma OpenKeepsGone(s: AuthState, user: User, ttl: int, now: int, access: Token, tokens: set<Token>)
    requires A.UniqueTokens(s.sessions) && SessionsIssued(s) && access !in s.issued && Gone(s, tokens)
    ensures Gone(OpenSession(s, user, ttl, now, access), tokens)
  {
    var s' := OpenSession(s, user, ttl, now, access);
    forall x | x in s'.sessions ensures x.token !in tokens {
      A.CreatedMembers(s.sessions, access, user, ttl, now, x);
    }
  }

  lemma {:induction false} RunKeepsGone(s: AuthState, run: Run, tokens: set<Token>)
    requires Inv(s) && Feasible(s, run) && Gone(s, tokens)
    ensures Inv(After(s, run)) && Gone(After(s, run), tokens)
    decreases |run|
  {
    if run == [] {
    } else {
      StepKeepsGone(s, run[0], tokens);
      StepKeepsInv(s, run[0]);
      RunKeepsGone(Step(s, run[0]), run[1..], tokens);
    }
  }

  /** Every access token a user was ever issued. */
  function AccessOf(s: AuthState, user: User): set<Token> {
    set k | k in s.issued && s.issued[k] == user
  }

  /** Does presenting this refresh token here lead to credentials, whoever presents it and however? */
  ghost predicate Yields(s: AuthState, token: Token) {
    exists ttl: int, now: int, expected: Option<User>, minted: Token ::
      R.Present(s.db, token, ttl, now, expected, minted).grant.Some?
  }

  /** Does this access token validate here at some time? */
  ghost predicate Validates(s: AuthState, token: Token) {
    exists now: int :: A.Validated(s.sessions, token, now).user.Some?
  }

  lemma DeadForever(s: AuthState, run: Run, dead: set<Token>, token: Token)
    requires R.Chained(s.db) && Feasible(s, run) && R.Dead(s.db, dead) && token in dead
    ensures !Yields(After(s, run), token)
  {
    RunAdvances(s, run);
    R.DeadStayDead(s.db, After(s, run).db, dead);
    hide R.Advances, R.Chained;
    forall ttl: int, now: int, expected: Option<User>, minted: Token
      ensures R.Present(After(s, run).db, token, ttl, now, expected, minted).grant.None?
    {
      R.DeadYieldsNothing(After(s, run).db, dead, token, ttl, now, expected, minted);
    }
  }

  /** Once a password reset completes, no refresh token and no access token the user was issued before it
      ever works again, whatever happens later. */
  lemma ResetIsPermanent(s: AuthState, now: int, user: User, run: Run, refresh: Token, access: Token)
    requires Inv(s) && Feasible(Step(s, Timed(now, FinishReset(user))), run)
    ensures var s' := After(Step(s, Timed(now, FinishReset(user))), run);
            && (refresh in R.TokensOf(s.db, user) ==> !Yields(s', refresh))
            && (access in AccessOf(s, user) ==> !Validates(s', access))
  {
    var t := Timed(now, FinishReset(user));
    var s0 := Step(s, t);
    StepKeepsInv(s, t);
    R.RevokeUserKills(s.db, user, now);
    if refresh in R.TokensOf(s.db, user) {
      DeadForever(s0, run, R.TokensOf(s.db, user), refresh);
    }
    ResetEndsSessions(s, t);
    RunKeepsGone(s0, run, AccessOf(s, user));
    A.FindMembers(After(s0, run).sessions, access);
  }

  lemma ResetEndsSessions(s: AuthState, t: Timed)
    requires Inv(s) && t.event.FinishReset?
    ensures Gone(Step(s, t), AccessOf(s, t.event.user))
  {
    forall x | x in Step(s, t).sessions ensures x.token !in AccessOf(s, t.event.user) {
      A.OfMembers(s.sessions, t.event.user, x);
    }
  }

  lemma GoneForever(s: AuthState, run: Run, tokens: set<Token>, access: Token)
    requires Inv(s) && Feasible(s, run) && Gone(s, tokens) && access in tokens
    ensures !Validates(After(s, run), access)
  {
    RunKeepsGone(s, run, tokens);
    A.FindMembers(After(s, run).sessions, access);
  }

  /** Once a session is ended, or all of a user's sessions are, or the server starts anew, the tokens never
      validate again, whatever happens later. */
  lemma EndingIsPermanent(s: AuthState, t: Timed, run: Run, access: Token)
    requires Inv(s) && Feasible(Step(s, t), run) && access in s.issued
    requires t.event == EndSession(access) || t.event == EndUserSessions(s.issued[access]) || t.event == Restart
    ensures !Validates(After(Step(s, t), run), access)
  {
    StepKeepsInv(s, t);
    forall x | x in Step(s, t).sessions ensures x.token != access {
      if t.event.EndSession? {
        A.WithoutMembers(s.sessions, access);
      } else if t.event.EndUserSessions? {
        A.OfMembers(s.sessions, s.issued[access], x);
      }
    }
    GoneForever(Step(s, t), run, {access}, access);
  }

  /** Once a user's refresh tokens are revoked, none of those issued before ever works again. */
  lemma RevocationIsPermanent(s: AuthState, now: int, user: User, run: Run, token: Token)
    requires Inv(s) && Feasible(Step(s, Timed(now, RevokeUserTokens(user))), run) && token in R.TokensOf(s.db, user)
    ensures !Yields(After(Step(s, Timed(now, RevokeUserTokens(user))), run), token)
  {
    StepKeepsInv(s, Timed(now, RevokeUserTokens(user)));
    R.RevokeUserKills(s.db, user, now);
    DeadForever(Step(s, Timed(now, RevokeUserTokens(user))), run, R.TokensOf(s.db, user), token);
  }

  /** Once an old token triggers the theft response, no refresh token its owner held then ever works again. */
  lemma TheftResponseIsPermanent(s: AuthState, t: Timed, run: Run, token: Token)
    requires Inv(s) && t.event.Refresh? && Unused(s, t.event) && Feasible(Step(s, t), run)
    requires R.Judge(s.db, t.event.token, t.now, t.event.expected) == R.RefuseAndRevokeUser
    requires token in R.TokensOf(s.db, s.db.records[t.event.token].username)
    ensures !Yields(After(Step(s, t), run), token)
  {
    var user := s.db.records[t.event.token].username;
    StepKeepsInv(s, t);
    R.RevokeUserKills(s.db, user, t.now);
    DeadForever(Step(s, t), run, R.TokensOf(s.db, user), token);
  }

  /** Does this operation concern the session, either as its owner's or by its token? */
  predicate Touches(s: AuthState, t: Timed, x: A.Session) {
    match t.event
    case NewSession(user, _, _) => user == x.username
    case EndSession(token) => token == x.token
    case EndUserSessions(user) => user == x.username
    case FinishReset(user) => user == x.username
    case Restart => true
    case Refresh(token, _, _, _, _, _, _) => token in s.db.records && s.db.records[token].username == x.username
    case _ => false
  }

  /** The last time an operation reads the clock. */
  function ClockAt(t: Timed): int {
    if t.event.Refresh? && t.event.later > t.now then t.event.later else t.now
  }

  lemma OthersSessionStays(s: AuthState, t: Timed, x: A.Session)
    requires Inv(s) && Unused(s, t.event) && x in s.sessions && ClockAt(t) < x.expiresAt && !Touches(s, t, x)
    ensures x in Step(s, t).sessions
  {
    match t.event
    case NewSession(user, ttl, access) => OpenKeepsOthers(s, user, ttl, t.now, access, x);
    case Refresh(token, accessTtl, refreshTtl, expected, access, refresh, later) =>
      var o := Presented(s, t);
      if o.grant.Some? {
        R.GrantGoesToOwner(s.db, token, refreshTtl, t.now, expected, refresh);
        OpenKeepsOthers(s.(db := o.store), o.grant.value.username, accessTtl, later, access, x);
      }
    case CheckSession(token) =>
      A.WithoutMembers(s.sessions, token);
      A.FindMembers(s.sessions, token);
      if token == x.token {
        A.SameToken(s.sessions, A.Find(s.sessions, token).value, x);
      }
    case EndSession(token) => A.WithoutMembers(s.sessions, token);
    case EndUserSessions(user) => A.OfMembers(s.sessions, user, x);
    case FinishReset(user) => A.OfMembers(s.sessions, user, x);
    case _ =>
  }

  lemma OpenKeepsOthers(s: AuthState, user: User, ttl: int, now: int, access: Token, x: A.Session)
    requires A.UniqueTokens(s.sessions) && SessionsIssued(s) && access !in s.issued
    requires x in s.sessions && x.username != user && now < x.expiresAt
    ensures x in OpenSession(s, user, ttl, now, access).sessions
  {
    A.CreatedMembers(s.sessions, access, user, ttl, now, x);
    if x in A.Evicted(s.sessions, user, now) {
      A.EvictsSoonestToExpire(s.sessions, user, now, x, x);
    }
  }

  /** Nothing on a run touches the session, and the clock stays short of its expiry. */
  predicate LeftAlone(s: AuthState, run: Run, x: A.Session)
    decreases |run|
  {
    run == [] || (!Touches(s, run[0], x) && ClockAt(run[0]) < x.expiresAt && LeftAlone(Step(s, run[0]), run[1..], x))
  }

  /** On every run an unexpired session outlives everything other users do. */
  lemma {:induction false} OthersCannotDisturb(s: AuthState, run: Run, x: A.Session)
    requires Inv(s) && Feasible(s, run) && x in s.sessions && LeftAlone(s, run, x)
    ensures x in After(s, run).sessions
    decreases |run|
  {
    if run == [] {
    } else {
      OthersSessionStays(s, run[0], x);
      StepKeepsInv(s, run[0]);
      OthersCannotDisturb(Step(s, run[0]), run[1..], x);
    }
  }

  // ------------------------------------------------------- the wrong hint

  const REPLAYED_WITH_WRONG_HINT: Run :=
    [Timed(0, NewRefresh("a", 60, "t0")),
     Timed(1, Refresh("t0", 60, 60, None, "s1", "t1", 1)),
     Timed(2, Refresh("t0", 60, 60, Some("b"), "s2", "t2", 2))]

  /** From an empty table: a rotation, and a second presentation of the old token a second later with another
      user's name, and the live successor is revoked. */
  lemma WrongHintKillsSuccessor()
    ensures var s := AuthState(R.Store(map["a" := false], map[], 0), [], map[]);
            var run := REPLAYED_WITH_WRONG_HINT;
            && Inv(s) && Feasible(s, run)
            && R.Live(After(s, run[..2]).db, "t1", 2) && !R.Live(After(s, run).db, "t1", 2)
  {
    hide Inv, Step, Unused, After, Feasible, R.Live;
    var s := AuthState(R.Store(map["a" := false], map[], 0), [], map[]);
    var run := REPLAYED_WITH_WRONG_HINT;
    EmptyIsFine(s);
    Issues(s);
    var s1 := Step(s, run[0]);
    RotatesOnce(s1);
    var s2 := Step(s1, run[1]);
    Kills(s2);
    Unrolled(s, run[..2]);
    Unrolled(s1, run[..2][1..]);
    Unrolled(s2, run[..2][1..][1..]);
    Unrolled(s, run);
    Unrolled(s1, run[1..]);
    Unrolled(s2, run[1..][1..]);
    Unrolled(Step(s2, run[2]), run[1..][1..][1..]);
  }

  lemma Unrolled(s: AuthState, run: Run)
    ensures After(s, run) == if run == [] then s else After(Step(s, run[0]), run[1..])
    ensures Feasible(s, run) <==> run == [] || (Unused(s, run[0].event) && Feasible(Step(s, run[0]), run[1..]))
  {
  }

  lemma Issues(s: AuthState)
    requires s == AuthState(R.Store(map["a" := false], map[], 0), [], map[])
    ensures Unused(s, REPLAYED_WITH_WRONG_HINT[0].event)
    ensures Step(s, REPLAYED_WITH_WRONG_HINT[0])
         == s.(db := R.Store(map["a" := false], map["t0" := R.Record(0, "a", 60, 0, None, None)], 1))
  {
  }

  lemma RotatesOnce(s: AuthState)
    requires s == AuthState(R.Store(map["a" := false], map["t0" := R.Record(0, "a", 60, 0, None, None)], 1), [], map[])
    ensures var t := REPLAYED_WITH_WRONG_HINT[1];
            && Unused(s, t.event)
            && Step(s, t).issued == map["s1" := "a"]
            && Step(s, t).db == R.Store(map["a" := false], map["t0" := R.Record(0, "a", 60, 0, Some(1), Some("t1")),
                                                             "t1" := R.Record(1, "a", 61, 1, None, None)], 2)
  {
    assert R.Judge(s.db, "t0", 1, None) == R.Rotate;
    hide R.Judge, A.Created;
  }

  lemma Kills(s: AuthState)
    requires s.issued == map["s1" := "a"]
    requires s.db == R.Store(map["a" := false], map["t0" := R.Record(0, "a", 60, 0, Some(1), Some("t1")),
                                                  "t1" := R.Record(1, "a", 61, 1, None, None)], 2)
    ensures var t := REPLAYED_WITH_WRONG_HINT[2];
            && Unused(s, t.event) && R.Live(s.db, "t1", 2) && !R.Live(Step(s, t).db, "t1", 2)
  {
    assert R.Judge(s.db, "t0", 2, Some("b")) == R.RefuseAndRevokeUser;
    assert R.RevokeUser(s.db, "a", 2).records["t1"].revokedAt == Some(2);
    hide R.Judge, R.RevokeUser, A.Created;
  }

  lemma EmptyIsFine(s: AuthState)
    requires s.db.records == map[] && s.sessions == []
    ensures Inv(s)
  {
    assert forall u :: A.Of([], u) == [];
  }

  // ------------------------------------------------------------- expiry

  /** A token that was not rotated before it expired. */
  predicate Lapsed(s: AuthState, token: Token, since: int) {
    token in s.db.records && s.db.records[token].replacedBy == None && s.db.records[token].expiresAt <= since
  }

  lemma LapsedYieldsNothing(s: AuthState, t: Timed)
    requires R.Chained(s.db) && t.event.Refresh? && Lapsed(s, t.event.token, t.now)
    ensures Presented(s, t).grant == None
  {
    R.GrantedIff(s.db, t.event.token, t.event.refreshTtl, t.now, t.event.expected, t.event.refresh);
    hide *;
  }

  lemma StepKeepsLapsed(s: AuthState, t: Timed, token: Token, since: int)
    requires R.Chained(s.db) && Unused(s, t.event) && Lapsed(s, token, since) && since <= t.now
    ensures Lapsed(Step(s, t), token, since)
  {
    hide A.Created, A.Validated, A.NotOf, A.Without, R.Chained;
    StepKeepsChains(s, t);
    if t.event.Refresh? && t.event.token == token {
      LapsedYieldsNothing(s, t);
    }
  }

  /** A token that was not rotated before it expired never yields anything from then on, on any run whatever. */
  lemma {:induction false} LapsedForever(s: AuthState, run: Run, token: Token, since: int, t: Timed)
    requires R.Chained(s.db) && Feasible(s, run) && Lapsed(s, token, since)
    requires forall e :: e in run ==> since <= e.now
    requires t.event.Refresh? && t.event.token == token && since <= t.now
    ensures Lapsed(After(s, run), token, since) && Presented(After(s, run), t).grant == None
    decreases |run|
  {
    hide Step, Presented, R.Chained, Unused, Lapsed;
    if run == [] {
      LapsedStays(s, token, since, t.now);
      LapsedYieldsNothing(s, t);
    } else {
      StepKeepsChains(s, run[0]);
      StepKeepsLapsed(s, run[0], token, since);
      LapsedForever(Step(s, run[0]), run[1..], token, since, t);
    }
  }

  lemma LapsedStays(s: AuthState, token: Token, since: int, now: int)
    requires Lapsed(s, token, since) && since <= now
    ensures Lapsed(s, token, now)
  {
  }

  // ------------------------------------------------------ what is issued works

  /** A new session validates to its owner at every time before its expiry, on every run that leaves it alone; and
      from its expiry on it does not. */
  lemma NewSessionWorks(s: AuthState, now: int, user: User, ttl: int, access: Token, run: Run, later: int)
    requires Inv(s) && access !in s.issued
    requires var s1 := Step(s, Timed(now, NewSession(user, ttl, access)));
             Feasible(s1, run) && LeftAlone(s1, run, A.Session(access, user, now + ttl))
    ensures var s' := After(Step(s, Timed(now, NewSession(user, ttl, access))), run);
            A.Validated(s'.sessions, access, later).user == if later < now + ttl then Some(user) else None
  {
    hide A.Created, A.Validated, R.Chained, After, Feasible, LeftAlone;
    var t := Timed(now, NewSession(user, ttl, access));
    var s1, x := Step(s, t), A.Session(access, user, now + ttl);
    NewSessionIsThere(s, access, user, ttl, now);
    StepKeepsInv(s, t);
    OthersCannotDisturb(s1, run, x);
    RunKeepsInv(s1, run);
    ValidatesAsHeld(After(s1, run).sessions, x, later);
  }

  lemma ValidatesAsHeld(ss: seq<A.Session>, x: A.Session, now: int)
    requires A.UniqueTokens(ss) && x in ss
    ensures A.Validated(ss, x.token, now).user == if now < x.expiresAt then Some(x.username) else None
  {
    hide A.Validated;
    A.ValidatesIff(ss, x.token, now, x.username, x);
    var user := A.Validated(ss, x.token, now).user;
    if user.Some? {
      A.ValidatesIff(ss, x.token, now, user.value, x);
      var y :| y in ss && y.token == x.token && y.username == user.value && now < y.expiresAt;
      A.SameToken(ss, x, y);
    }
  }

  /** Checking a token drops its session if it has expired, and nothing else. */
  lemma CheckingDropsExpired(s: AuthState, now: int, token: Token, x: A.Session)
    requires Inv(s)
    ensures x in Step(s, Timed(now, CheckSession(token))).sessions <==>
              x in s.sessions && !(x.token == token && x.expiresAt <= now)
  {
    A.ValidatesIff(s.sessions, token, now, "", x);
  }

  /** A new refresh token of a user with an account who is not banned earns credentials until it expires, and not
      from then on. */
  lemma NewRefreshWorks(s: AuthState, now: int, user: User, ttl: int, refresh: Token, t: Timed)
    requires refresh !in s.db.records && user in s.db.accounts && !s.db.accounts[user]
    requires t.event.Refresh? && t.event.token == refresh
    requires t.event.expected == None || t.event.expected == Some(user)
    ensures Presented(Step(s, Timed(now, NewRefresh(user, ttl, refresh))), t).grant.Some? <==> t.now < now + ttl
  {
    hide R.Present;
    var s1 := Step(s, Timed(now, NewRefresh(user, ttl, refresh)));
    R.GrantedIff(s1.db, refresh, t.event.refreshTtl, t.now, t.event.expected, t.event.refresh);
  }
}
