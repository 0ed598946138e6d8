/**
 The in-memory table of access sessions of server/auth/auth.py: bounded per user, oldest evicted first.
 The table keeps its entries in insertion order, as a Python dictionary does.
 */
module AccessSessions {
  import opened Wrappers

  type Token = string
  type User = string

  datatype Session = Session(token: Token, username: User, expiresAt: int)

  const MAX_SESSIONS_PER_USER := 10

  // ------------------------------------------------------------ the table

  function Unexpired(ss: seq<Session>, now: int): seq<Session> {
    if ss == [] then []
    else (if ss[0].expiresAt <= now then [] else [ss[0]]) + Unexpired(ss[1..], now)
  }

  function Of(ss: seq<Session>, user: User): seq<Session> {
    if ss == [] then []
    else (if ss[0].username == user then [ss[0]] else []) + Of(ss[1..], user)
  }

  function NotOf(ss: seq<Session>, user: User): seq<Session> {
    if ss == [] then []
    else (if ss[0].username == user then [] else [ss[0]]) + NotOf(ss[1..], user)
  }

  /** `dict.pop(token, None)`: keys are unique, so at most one entry goes. */
  function Without(ss: seq<Session>, token: Token): seq<Session> {
    if ss == [] then []
    else if ss[0].token == token then ss[1..]
    else [ss[0]] + Without(ss[1..], token)
  }

  function WithoutAll(ss: seq<Session>, dropped: seq<Session>): seq<Session>
    decreases |dropped|
  {
    if dropped == [] then ss else WithoutAll(Without(ss, dropped[0].token), dropped[1..])
  }

  function Find(ss: seq<Session>, token: Token): Option<Session> {
    if ss == [] then None else if ss[0].token == token then Some(ss[0]) else Find(ss[1..], token)
  }

  /** Sorting by expiry, earlier entries first among equals. */
  function SortByExpiry(ss: seq<Session>): seq<Session> {
    if ss == [] then [] else InsertByExpiry(ss[0], SortByExpiry(ss[1..]))
  }

  function InsertByExpiry(s: Session, sorted: seq<Session>): seq<Session> {
    if sorted == [] || s.expiresAt <= sorted[0].expiresAt then [s] + sorted
    else [sorted[0]] + InsertByExpiry(s, sorted[1..])
  }

  /** How many of a user's sessions must go before one more is added. */
  function Excess(mine: seq<Session>): (n: nat)
    ensures n <= |mine|
  {
    var excess := |mine| - (MAX_SESSIONS_PER_USER - 1);
    if excess > 0 then excess else 0
  }

  /** The sessions evicted to make room for one more of the user's. */
  function Evicted(ss: seq<Session>, user: User, now: int): seq<Session> {
    var mine := SortByExpiry(Of(Unexpired(ss, now), user));
    mine[..Excess(mine)]
  }

  /** Creating a session: prune, evict, insert. */
  function Created(ss: seq<Session>, token: Token, user: User, ttl: int, now: int): seq<Session> {
    WithoutAll(Unexpired(ss, now), Evicted(ss, user, now)) + [Session(token, user, now + ttl)]
  }

  datatype Validation = Validation(sessions: seq<Session>, user: Option<User>)

  /** Validating a token drops it if it has expired. */
  function Validated(ss: seq<Session>, token: Token, now: int): Validation {
    match Find(ss, token)
    case None => Validation(ss, None)
    case Some(s) =>
      if s.expiresAt <= now then Validation(Without(ss, token), None) else Validation(ss, Some(s.username))
  }

  /** Token strings are unique: they are dictionary keys. */
  ghost predicate UniqueTokens(ss: seq<Session>) {
    forall i, j :: 0 <= i < j < |ss| ==> ss[i].token != ss[j].token
  }

  // --------------------------------------------------------------- lemmas

  lemma {:induction false} UnexpiredMembers(ss: seq<Session>, now: int, s: Session)
    ensures s in Unexpired(ss, now) <==> s in ss && s.expiresAt > now
  {
    if ss == [] {
    } else {
      UnexpiredMembers(ss[1..], now, s);
      assert s in ss <==> s == ss[0] || s in ss[1..];
    }
  }

  lemma {:induction false} OfMembers(ss: seq<Session>, user: User, s: Session)
    ensures s in Of(ss, user) <==> s in ss && s.username == user
    ensures s in NotOf(ss, user) <==> s in ss && s.username != user
  {
    if ss == [] {
    } else {
      OfMembers(ss[1..], user, s);
      assert s in ss <==> s == ss[0] || s in ss[1..];
    }
  }

  /** Two entries with one token are the same entry. */
  lemma SameToken(ss: seq<Session>, a: Session, b: Session)
    requires UniqueTokens(ss) && a in ss && b in ss && a.token == b.token
    ensures a == b
  {
    var i :| 0 <= i < |ss| && ss[i] == a;
    var j :| 0 <= j < |ss| && ss[j] == b;
  }

  lemma UniqueTail(ss: seq<Session>)
    requires UniqueTokens(ss) && ss != []
    ensures UniqueTokens(ss[1..])
    ensures forall s :: s in ss[1..] ==> s.token != ss[0].token
  {
    forall i, j | 0 <= i < j < |ss[1..]| ensures ss[1..][i].token != ss[1..][j].token {
      assert ss[i + 1].token != ss[j + 1].token;
    }
    forall s | s in ss[1..] ensures s.token != ss[0].token {
      var i :| 0 <= i < |ss[1..]| && ss[1..][i] == s;
      assert ss[i + 1] == s;
    }
  }

  lemma UniqueCons(s: Session, ss: seq<Session>)
    requires UniqueTokens(ss) && forall x :: x in ss ==> x.token != s.token
    ensures UniqueTokens([s] + ss)
  {
    var r := [s] + ss;
    forall i, j | 0 <= i < j < |r| ensures r[i].token != r[j].token {
      assert r[j] == ss[j - 1] && ss[j - 1] in ss;
      if i > 0 { assert r[i] == ss[i - 1]; }
    }
  }

  lemma {:induction false} UnexpiredUnique(ss: seq<Session>, now: int)
    requires UniqueTokens(ss)
    ensures UniqueTokens(Unexpired(ss, now))
  {
    if ss == [] {
    } else {
      UniqueTail(ss);
      UnexpiredUnique(ss[1..], now);
      forall x | x in Unexpired(ss[1..], now) ensures x.token != ss[0].token {
        UnexpiredMembers(ss[1..], now, x);
      }
      if ss[0].expiresAt > now {
        UniqueCons(ss[0], Unexpired(ss[1..], now));
      } else {
        assert Unexpired(ss, now) == Unexpired(ss[1..], now);
      }
    }
  }

  lemma {:induction false} NotOfUnique(ss: seq<Session>, user: User)
    requires UniqueTokens(ss)
    ensures UniqueTokens(NotOf(ss, user)) && UniqueTokens(Of(ss, user))
  {
    if ss == [] {
    } else {
      UniqueTail(ss);
      NotOfUnique(ss[1..], user);
      forall x | x in NotOf(ss[1..], user) || x in Of(ss[1..], user) ensures x.token != ss[0].token {
        OfMembers(ss[1..], user, x);
      }
      if ss[0].username == user {
        assert NotOf(ss, user) == NotOf(ss[1..], user);
        UniqueCons(ss[0], Of(ss[1..], user));
      } else {
        assert Of(ss, user) == Of(ss[1..], user);
        UniqueCons(ss[0], NotOf(ss[1..], user));
      }
    }
  }

  /** Removing a token removes exactly the entry that has it. */
  lemma {:induction false} WithoutMembers(ss: seq<Session>, token: Token)
    requires UniqueTokens(ss)
    ensures UniqueTokens(Without(ss, token))
    ensures forall s :: s in Without(ss, token) <==> s in ss && s.token != token
  {
    if ss == [] {
    } else {
      UniqueTail(ss);
      WithoutMembers(ss[1..], token);
      assert forall s :: s in ss <==> s == ss[0] || s in ss[1..];
      if ss[0].token != token {
        UniqueCons(ss[0], Without(ss[1..], token));
      }
    }
  }

  lemma {:induction false} WithoutAllMembers(ss: seq<Session>, dropped: seq<Session>)
    requires UniqueTokens(ss)
    ensures UniqueTokens(WithoutAll(ss, dropped))
    ensures forall s :: s in WithoutAll(ss, dropped) <==> s in ss && forall d :: d in dropped ==> d.token != s.token
    decreases |dropped|
  {
    if dropped == [] {
    } else {
      WithoutMembers(ss, dropped[0].token);
      WithoutAllMembers(Without(ss, dropped[0].token), dropped[1..]);
      assert forall d :: d in dropped <==> d == dropped[0] || d in dropped[1..];
    }
  }

  lemma {:induction false} FindMembers(ss: seq<Session>, token: Token)
    ensures match Find(ss, token)
            case Some(s) => s in ss && s.token == token
            case None => forall s :: s in ss ==> s.token != token
  {
    if ss != [] && ss[0].token != token {
      FindMembers(ss[1..], token);
      assert forall s :: s in ss <==> s == ss[0] || s in ss[1..];
    }
  }

  ghost predicate ByExpiry(ss: seq<Session>) {
    forall i, j :: 0 <= i < j < |ss| ==> ss[i].expiresAt <= ss[j].expiresAt
  }

  lemma {:induction false} InsertPermutes(s: Session, sorted: seq<Session>)
    ensures multiset(InsertByExpiry(s, sorted)) == multiset{s} + multiset(sorted)
  {
    if sorted != [] && s.expiresAt > sorted[0].expiresAt {
      assert sorted == [sorted[0]] + sorted[1..];
      InsertPermutes(s, sorted[1..]);
    }
  }

  /** Inserting keeps the order, and the new head is the smaller of the two candidates. */
  lemma {:induction false} InsertSorts(s: Session, sorted: seq<Session>)
    requires ByExpiry(sorted)
    ensures var r := InsertByExpiry(s, sorted);
            r != [] && ByExpiry(r) && (r[0] == s || (sorted != [] && r[0] == sorted[0]))
  {
    if sorted != [] && s.expiresAt > sorted[0].expiresAt {
      var rest := sorted[1..];
      assert forall i :: 0 <= i < |rest| ==> rest[i] == sorted[i + 1];
      InsertSorts(s, rest);
      var r := InsertByExpiry(s, rest);
      HeadBoundsAll(sorted[0], r);
    }
  }

  lemma HeadBoundsAll(s: Session, r: seq<Session>)
    requires r != [] && ByExpiry(r) && s.expiresAt <= r[0].expiresAt
    ensures ByExpiry([s] + r)
  {
    var t := [s] + r;
    assert forall i :: 0 < i < |t| ==> t[i] == r[i - 1];
  }

  lemma {:induction false} SortSorts(ss: seq<Session>)
    ensures ByExpiry(SortByExpiry(ss)) && multiset(SortByExpiry(ss)) == multiset(ss)
    ensures |SortByExpiry(ss)| == |ss|
  {
    if ss != [] {
      SortSorts(ss[1..]);
      InsertSorts(ss[0], SortByExpiry(ss[1..]));
      InsertPermutes(ss[0], SortByExpiry(ss[1..]));
      assert ss == [ss[0]] + ss[1..];
    }
    assert |multiset(SortByExpiry(ss))| == |multiset(ss)|;
  }

  /** A subset of the entries, told apart by token, is no longer than what it came from. */
  lemma {:induction false} OfAfterWithout(ss: seq<Session>, user: User, s: Session)
    requires UniqueTokens(ss) && s in ss && s.username == user
    ensures |Of(Without(ss, s.token), user)| == |Of(ss, user)| - 1
  {
    UniqueTail(ss);
    if ss[0].token == s.token {
      SameToken(ss, ss[0], s);
    } else {
      OfAfterWithout(ss[1..], user, s);
      assert ([ss[0]] + Without(ss[1..], s.token))[1..] == Without(ss[1..], s.token);
    }
  }

  lemma {:induction false} OfAfterWithoutAll(ss: seq<Session>, user: User, dropped: seq<Session>)
    requires UniqueTokens(ss) && UniqueTokens(dropped)
    requires forall d :: d in dropped ==> d in ss && d.username == user
    ensures |Of(WithoutAll(ss, dropped), user)| == |Of(ss, user)| - |dropped|
    decreases |dropped|
  {
    if dropped == [] {
    } else {
      assert dropped[0] in dropped;
      OfAfterWithout(ss, user, dropped[0]);
      WithoutMembers(ss, dropped[0].token);
      UniqueTail(dropped);
      forall d | d in dropped[1..] ensures d in Without(ss, dropped[0].token) && d.username == user {
        assert d in dropped;
      }
      OfAfterWithoutAll(Without(ss, dropped[0].token), user, dropped[1..]);
    }
  }

  lemma {:induction false} OfAppend(a: seq<Session>, b: seq<Session>, user: User)
    ensures Of(a + b, user) == Of(a, user) + Of(b, user)
  {
    if a == [] {
      assert a + b == b;
    } else {
      assert (a + b)[0] == a[0] && (a + b)[1..] == a[1..] + b;
      OfAppend(a[1..], b, user);
    }
  }

  /** The first n of the sorted entries expire no later than the rest. */
  lemma FirstExpireSoonest(mine: seq<Session>, n: nat, d: Session, k: Session)
    requires n <= |mine|
    ensures n <= |SortByExpiry(mine)|
    ensures var gone := SortByExpiry(mine)[..n];
            d in gone && k in mine && k !in gone ==> d in mine && d.expiresAt <= k.expiresAt
  {
    var sorted := SortByExpiry(mine);
    SortSorts(mine);
    var gone := sorted[..n];
    if d in gone && k in mine && k !in gone {
      assert d in multiset(sorted) && k in multiset(sorted);
      var i :| 0 <= i < |gone| && gone[i] == d;
      var j :| 0 <= j < |sorted| && sorted[j] == k;
      assert j >= n by {
        assert forall m :: 0 <= m < n ==> sorted[m] == gone[m] && gone[m] in gone;
      }
    }
  }

  /** The evicted entries: the user's own unexpired ones, no two alike, as many as the excess. */
  lemma EvictedFacts(ss: seq<Session>, user: User, now: int)
    requires UniqueTokens(ss)
    ensures var mine := Of(Unexpired(ss, now), user);
            var gone := Evicted(ss, user, now);
            && UniqueTokens(gone) && |gone| == Excess(mine)
            && (forall d :: d in gone ==> d in mine)
  {
    var mine := Of(Unexpired(ss, now), user);
    SortSorts(mine);
    UnexpiredUnique(ss, now);
    NotOfUnique(Unexpired(ss, now), user);
    SortedUnique(mine);
    var gone := Evicted(ss, user, now);
    forall d | d in gone ensures d in mine {
      assert d in multiset(SortByExpiry(mine));
    }
  }

  lemma {:induction false} SortedUnique(ss: seq<Session>)
    requires UniqueTokens(ss)
    ensures UniqueTokens(SortByExpiry(ss))
  {
    if ss == [] {
    } else {
      UniqueTail(ss);
      SortedUnique(ss[1..]);
      SortSorts(ss[1..]);
      forall x | x in SortByExpiry(ss[1..]) ensures x.token != ss[0].token {
        assert x in multiset(SortByExpiry(ss[1..]));
      }
      InsertUnique(ss[0], SortByExpiry(ss[1..]));
    }
  }

  lemma {:induction false} InsertUnique(s: Session, sorted: seq<Session>)
    requires UniqueTokens(sorted) && forall x :: x in sorted ==> x.token != s.token
    ensures UniqueTokens(InsertByExpiry(s, sorted))
    ensures forall x :: x in InsertByExpiry(s, sorted) <==> x == s || x in sorted
  {
    if sorted == [] || s.expiresAt <= sorted[0].expiresAt {
      UniqueCons(s, sorted);
    } else {
      UniqueTail(sorted);
      InsertUnique(s, sorted[1..]);
      UniqueCons(sorted[0], InsertByExpiry(s, sorted[1..]));
      assert forall x :: x in sorted <==> x == sorted[0] || x in sorted[1..];
    }
  }

  // --------------------------------------------------------- main results

  /** What creating a session does to every entry already there: an expired one goes; another user's
      stays; one of the user's own goes only if it is evicted. */
  lemma CreatedMembers(ss: seq<Session>, token: Token, user: User, ttl: int, now: int, s: Session)
    requires UniqueTokens(ss) && forall x :: x in ss ==> x.token != token
    ensures UniqueTokens(Created(ss, token, user, ttl, now))
    ensures s in Created(ss, token, user, ttl, now)
        <==> s == Session(token, user, now + ttl)
             || (s in ss && s.expiresAt > now && s !in Evicted(ss, user, now))
  {
    var live, gone := Unexpired(ss, now), Evicted(ss, user, now);
    UnexpiredUnique(ss, now);
    EvictedFacts(ss, user, now);
    WithoutAllMembers(live, gone);
    var kept := WithoutAll(live, gone);
    UnexpiredMembers(ss, now, s);
    forall d | d in gone ensures d in live {
      OfMembers(live, user, d);
    }
    assert s in live ==> (s in gone <==> exists d :: d in gone && d.token == s.token) by {
      forall d | d in gone && s in live && d.token == s.token ensures d == s {
        SameToken(live, d, s);
      }
    }
    forall x | x in kept ensures x.token != token {
      UnexpiredMembers(ss, now, x);
    }
    UniqueSnoc(kept, Session(token, user, now + ttl));
  }

  lemma UniqueSnoc(ss: seq<Session>, s: Session)
    requires UniqueTokens(ss) && forall x :: x in ss ==> x.token != s.token
    ensures UniqueTokens(ss + [s])
  {
    var r := ss + [s];
    forall i, j | 0 <= i < j < |r| ensures r[i].token != r[j].token {
      if j == |ss| {
        assert r[i] == ss[i] && ss[i] in ss;
      }
    }
  }

  /** Every evicted session expires no later than every session kept for the user, and nothing is
      evicted while the user has fewer than ten. */
  lemma EvictsSoonestToExpire(ss: seq<Session>, user: User, now: int, gone: Session, kept: Session)
    requires UniqueTokens(ss) && gone in Evicted(ss, user, now)
    ensures gone in ss && gone.username == user && gone.expiresAt > now
    ensures |Of(Unexpired(ss, now), user)| >= MAX_SESSIONS_PER_USER
    ensures kept in ss && kept.username == user && kept.expiresAt > now && kept !in Evicted(ss, user, now)
        ==> gone.expiresAt <= kept.expiresAt
  {
    EvictedFacts(ss, user, now);
    var live := Unexpired(ss, now);
    FirstExpireSoonest(Of(live, user), Excess(Of(live, user)), gone, kept);
    OfMembers(live, user, gone);
    OfMembers(live, user, kept);
    UnexpiredMembers(ss, now, gone);
    UnexpiredMembers(ss, now, kept);
  }

  /** Nobody ever has more than ten sessions after one is created for them, and exactly the excess is evicted. */
  lemma CreatedIsBounded(ss: seq<Session>, token: Token, user: User, ttl: int, now: int)
    requires UniqueTokens(ss)
    ensures |Of(Created(ss, token, user, ttl, now), user)| <= MAX_SESSIONS_PER_USER
    ensures var before := |Of(Unexpired(ss, now), user)|;
            |Of(Created(ss, token, user, ttl, now), user)|
            == if before < MAX_SESSIONS_PER_USER then before + 1 else MAX_SESSIONS_PER_USER
  {
    var live, gone := Unexpired(ss, now), Evicted(ss, user, now);
    UnexpiredUnique(ss, now);
    EvictedFacts(ss, user, now);
    forall d | d in gone ensures d in live && d.username == user {
      OfMembers(live, user, d);
    }
    OfAfterWithoutAll(live, user, gone);
    OfAppend(WithoutAll(live, gone), [Session(token, user, now + ttl)], user);
  }

  /** Removing entries, of whomever, never makes a user's share grow. */
  lemma {:induction false} FewerOf(a: seq<Session>, b: seq<Session>, user: User)
    requires UniqueTokens(a) && UniqueTokens(b) && forall s :: s in a && s.username == user ==> s in b
    ensures |Of(a, user)| <= |Of(b, user)|
    decreases |a|
  {
    if a == [] {
    } else {
      UniqueTail(a);
      if a[0].username == user {
        assert a[0] in a;
        OfAfterWithout(b, user, a[0]);
        WithoutMembers(b, a[0].token);
        forall s | s in a[1..] && s.username == user ensures s in Without(b, a[0].token) {
          assert s in a;
        }
        FewerOf(a[1..], Without(b, a[0].token), user);
      } else {
        forall s | s in a[1..] && s.username == user ensures s in b {
          assert s in a;
        }
        FewerOf(a[1..], b, user);
      }
    }
  }

  /** A token validates exactly to the owner of an unexpired session with it, and validating it drops the session
      exactly if it has expired. */
  lemma ValidatesIff(ss: seq<Session>, token: Token, now: int, user: User, x: Session)
    requires UniqueTokens(ss)
    ensures Validated(ss, token, now).user == Some(user) <==>
              exists s :: s in ss && s.token == token && s.username == user && now < s.expiresAt
    ensures x in Validated(ss, token, now).sessions <==> x in ss && !(x.token == token && x.expiresAt <= now)
  {
    FindMembers(ss, token);
    WithoutMembers(ss, token);
    if Find(ss, token).Some? {
      var found := Find(ss, token).value;
      forall s | s in ss && s.token == token ensures s == found {
        SameToken(ss, s, found);
      }
    }
  }

  /** Nobody has more than ten sessions after a new one. */
  lemma AtMostTen(ss: seq<Session>, token: Token, user: User, ttl: int, now: int)
    requires UniqueTokens(ss)
    ensures var before := |Of(Unexpired(ss, now), user)|;
            |Of(Created(ss, token, user, ttl, now), user)| == if before < 10 then before + 1 else 10
  {
    CreatedIsBounded(ss, token, user, ttl, now);
  }
}
