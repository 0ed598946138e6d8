/**
 The lockout of usernames after failed logins (server/core/server.py): failures are recorded without evaluating
 them, and every look at a username prunes what fell out of its window.
 */
module LoginLockout {
  import opened Wrappers
  import opened CallHistories
  import opened SlidingWindow

  /** A look at a username: a check before its login, or the record of a failed one. */
  datatype Look = Look(user: string, time: real, failed: bool)

  /** A deque after a look at it. */
  function LookedAt(dq: seq<real>, l: Look, window: real): seq<real> {
    Pruned(dq, window, l.time) + if l.failed then [l.time] else []
  }

  /** Does a look touch the table at all?  Nobody is recorded without a name or while the limiter is off. */
  predicate Counts(l: Look, limit: int) {
    l.user != "" && (l.failed ==> limit > 0)
  }

  /** The table after any looks at any usernames. */
  function LookedTable(looks: seq<Look>, limit: int, window: real): map<string, seq<real>> {
    if looks == [] then map[]
    else
      var l := looks[|looks| - 1];
      var before := LookedTable(looks[..|looks| - 1], limit, window);
      if Counts(l, limit) then before[l.user := LookedAt(Held(before, l.user), l, window)] else before
  }

  /** The times of a username's recorded failures. */
  function Failures(looks: seq<Look>, user: string): seq<real> {
    if looks == [] then []
    else
      var l := looks[|looks| - 1];
      Failures(looks[..|looks| - 1], user) + if l.user == user && l.failed then [l.time] else []
  }

  /** Is this username refused at a time? */
  predicate LockedOut(table: map<string, seq<real>>, user: string, limit: int, window: real, now: real) {
    user != "" && limit > 0 && |Pruned(Held(table, user), window, now)| >= limit
  }

  /** A non-decreasing clock, all of whose readings are no later than this. */
  ghost predicate Until(looks: seq<Look>, now: real) {
    && (forall i, j :: 0 <= i <= j < |looks| ==> looks[i].time <= looks[j].time)
    && (forall i :: 0 <= i < |looks| ==> looks[i].time <= now)
  }

  /** What was pruned before a timestamp came in would be pruned afterwards as well. */
  lemma {:induction false} PrunedBeforeAppending(dq: seq<real>, window: real, now: real, later: real)
    requires now <= later
    ensures Pruned(Pruned(dq, window, now) + [now], window, later) == Pruned(dq + [now], window, later)
  {
    if dq == [] {
      assert Pruned(dq, window, now) == dq;
    } else if now - dq[0] > window {
      assert (dq + [now])[0] == dq[0] && (dq + [now])[1..] == dq[1..] + [now];
      PrunedBeforeAppending(dq[1..], window, now, later);
    }
  }

  /** The pruned table is as good as the whole history, at any time from now on. */
  lemma {:induction false} TableIsAsGood(looks: seq<Look>, user: string, limit: int, window: real, now: real)
    requires limit > 0 && user != "" && Until(looks, now)
    ensures Pruned(Held(LookedTable(looks, limit, window), user), window, now)
            == Pruned(Failures(looks, user), window, now)
  {
    if looks == [] {
      assert Held(map[], user) == [];
    } else {
      var before, l := looks[..|looks| - 1], looks[|looks| - 1];
      var dq, all := Held(LookedTable(before, limit, window), user), Failures(before, user);
      assert Until(before, l.time) && Until(before, now);
      TableIsAsGood(before, user, limit, window, l.time);
      TableIsAsGood(before, user, limit, window, now);
      assert all + [] == all;
      if l.user == user {
        if l.failed {
          PrunedBeforeAppending(dq, window, l.time, now);
          PrunedBeforeAppending(all, window, l.time, now);
        } else {
          EarlierPruningIsHarmless(dq, window, l.time, now);
          assert Pruned(dq, window, l.time) + [] == Pruned(dq, window, l.time);
        }
      }
    }
  }

  lemma {:induction false} FailuresAreOrdered(looks: seq<Look>, user: string, now: real)
    requires Until(looks, now)
    ensures Ordered(Failures(looks, user))
    ensures forall i :: 0 <= i < |Failures(looks, user)| ==> Failures(looks, user)[i] <= now
  {
    if looks == [] {
      assert Failures(looks, user) == [];
    } else {
      var before, l := looks[..|looks| - 1], looks[|looks| - 1];
      assert Until(before, l.time);
      FailuresAreOrdered(before, user, l.time);
    }
  }

  /** Over any checks and failures of any usernames, with a clock that does not go back: a username is locked out
      if and only if at least `limit` of its failures lie in the window ending now. */
  lemma LockedOutIff(looks: seq<Look>, user: string, limit: int, window: real, now: real)
    requires limit > 0 && user != "" && Until(looks, now)
    ensures |Pruned(Held(LookedTable(looks, limit, window), user), window, now)|
         == CountIn(Failures(looks, user), now - window, now)
    ensures LockedOut(LookedTable(looks, limit, window), user, limit, window, now)
       <==> CountIn(Failures(looks, user), now - window, now) >= limit
  {
    TableIsAsGood(looks, user, limit, window, now);
    FailuresAreOrdered(looks, user, now);
    CountIsExact(Failures(looks, user), window, now);
  }

  /** With a limit of zero or less nobody is ever locked out, and no failure is kept. */
  lemma {:induction false} OffLocksNobodyOut(looks: seq<Look>, user: string, limit: int, window: real, now: real)
    requires limit <= 0
    ensures Held(LookedTable(looks, limit, window), user) == []
    ensures !LockedOut(LookedTable(looks, limit, window), user, limit, window, now)
  {
    if looks == [] {
      assert Held(map[], user) == [];
    } else {
      OffLocksNobodyOut(looks[..|looks| - 1], user, limit, window, now);
    }
  }

  // ------------------------------------------------------ the code as it runs

  datatype Refusal = RateLimitLoginIp | RateLimitLoginUser

  /** Two tables that hold the same timestamps, whichever of their empty deques they have dropped. */
  ghost predicate SameHeld(a: map<string, seq<real>>, b: map<string, seq<real>>) {
    forall u: string :: Held(a, u) == Held(b, u)
  }

  lemma HeldIs(table: map<string, seq<real>>, looks: seq<Look>, user: string, limit: int, window: real)
    requires SameHeld(table, LookedTable(looks, limit, window))
    ensures Held(table, user) == Held(LookedTable(looks, limit, window), user)
  {
  }

  /** A look that does not count leaves the table alone. */
  lemma NobodyLooks(looks: seq<Look>, l: Look, limit: int, window: real)
    ensures !Counts(l, limit) ==> LookedTable(looks + [l], limit, window) == LookedTable(looks, limit, window)
  {
    assert (looks + [l])[..|looks|] == looks;
  }

  /** The history goes on as the table does. */
  lemma HistoryGoesOn(looks: seq<Look>, l: Look, limit: int, window: real,
                      before: map<string, seq<real>>, after: map<string, seq<real>>)
    requires SameHeld(before, LookedTable(looks, limit, window)) && Counts(l, limit)
    requires after - {l.user} == before - {l.user} && Held(after, l.user) == LookedAt(Held(before, l.user), l, window)
    ensures SameHeld(after, LookedTable(looks + [l], limit, window))
  {
    assert (looks + [l])[..|looks|] == looks;
    forall u: string ensures Held(after, u) == Held(LookedTable(looks + [l], limit, window), u) {
      if u != l.user {
        OthersHeld(before, after, l.user, u);
      }
    }
  }

  lemma OthersHeld(before: map<string, seq<real>>, after: map<string, seq<real>>, user: string, u: string)
    requires after - {user} == before - {user} && u != user
    ensures Held(after, u) == Held(before, u)
  {
    assert u in after <==> u in after - {user};
    assert u in before <==> u in before - {user};
    assert u in after ==> after[u] == (after - {user})[u] == (before - {user})[u] == before[u];
  }

  class LoginLimiter {
    const loginAttemptsIp: AttemptTable
    const loginAttemptsUser: AttemptTable
    const ipLimit: int
    const ipWindow: real
    const userLimit: int
    const userWindow: real
    // The looks at usernames so far.
    ghost var looks: seq<Look>

    ghost predicate Valid()
      reads this, loginAttemptsIp, loginAttemptsUser
    {
      && loginAttemptsIp != loginAttemptsUser
      && SameHeld(loginAttemptsUser.entries, LookedTable(looks, userLimit, userWindow))
    }

    constructor (ipLimit: int, ipWindow: real, userLimit: int, userWindow: real)
      ensures Valid() && looks == [] && fresh(loginAttemptsIp) && fresh(loginAttemptsUser)
      ensures this.userLimit == userLimit && this.userWindow == userWindow
    {
      this.ipLimit, this.ipWindow, this.userLimit, this.userWindow := ipLimit, ipWindow, userLimit, userWindow;
      loginAttemptsIp := new AttemptTable();
      loginAttemptsUser := new AttemptTable();
      looks := [];
    }

    /** Before a login: the attempt counts against the address, the failures so far against the username. */
    method CheckLoginRateLimit(clientIp: string, username: string, now: real) returns (refusal: Option<Refusal>)
      requires Valid()
      modifies this, loginAttemptsIp, loginAttemptsUser
      ensures Valid()
      ensures refusal == Some(RateLimitLoginIp) <==>
              !Try(Held(old(loginAttemptsIp.entries), clientIp), ipLimit, ipWindow, now).allowed
      ensures loginAttemptsIp.entries
           == if ipLimit <= 0 then old(loginAttemptsIp.entries)
              else old(loginAttemptsIp.entries)[clientIp :=
                     Try(Held(old(loginAttemptsIp.entries), clientIp), ipLimit, ipWindow, now).deque]
      ensures looks
           == old(looks) + if refusal == Some(RateLimitLoginIp) then [] else [Look(username, now, false)]
      ensures refusal != Some(RateLimitLoginIp) && Until(old(looks), now) ==>
                (refusal == Some(RateLimitLoginUser) <==> Refused(old(looks), username, now))
    {
      hide Try, Until, Refused, LookedTable, SameHeld;
      var ok := loginAttemptsIp.AllowAttempt(clientIp, ipLimit, ipWindow, now);
      if !ok {
        return Some(RateLimitLoginIp);
      }
      var locked := CheckUser(username, now);
      return if locked then Some(RateLimitLoginUser) else None;
    }

    /** Does this history refuse a username? */
    predicate Refused(looks: seq<Look>, username: string, now: real) {
      username != "" && userLimit > 0 && CountIn(Failures(looks, username), now - userWindow, now) >= userLimit
    }

    method CheckUser(username: string, now: real) returns (locked: bool)
      requires Valid()
      modifies this, loginAttemptsUser
      ensures Valid() && looks == old(looks) + [Look(username, now, false)]
      ensures Until(old(looks), now) ==> (locked <==> Refused(old(looks), username, now))
    {
      hide Until, LookedTable, Pruned, SameHeld, CountIn, Failures;
      ghost var table := loginAttemptsUser.entries;
      ghost var l := Look(username, now, false);
      if username == "" {
        NobodyLooks(looks, l, userLimit, userWindow);
        looks := looks + [l];
        return false;
      }
      var failures := loginAttemptsUser.GetAttemptCount(username, userWindow, now);
      HeldIs(table, looks, username, userLimit, userWindow);
      HistoryGoesOn(looks, l, userLimit, userWindow, table, loginAttemptsUser.entries);
      if userLimit > 0 && Until(looks, now) {
        LockedOutIff(looks, username, userLimit, userWindow, now);
      }
      looks := looks + [l];
      return userLimit > 0 && failures >= userLimit;
    }

    /** After a login that failed. */
    method RecordLoginFailure(username: string, now: real)
      requires Valid()
      modifies this, loginAttemptsUser
      ensures Valid() && looks == old(looks) + [Look(username, now, true)]
    {
      hide Until, LookedTable, Pruned, SameHeld, CountIn, Failures;
      ghost var table := loginAttemptsUser.entries;
      NobodyLooks(looks, Look(username, now, true), userLimit, userWindow);
      if username == "" || userLimit <= 0 {
        looks := looks + [Look(username, now, true)];
        return;
      }
      var count := loginAttemptsUser.GetAttemptCount(username, userWindow, now);
      loginAttemptsUser.RecordAttempt(username, now);
      HistoryGoesOn(looks, Look(username, now, true), userLimit, userWindow, table, loginAttemptsUser.entries);
      looks := looks + [Look(username, now, true)];
    }
  }
}
