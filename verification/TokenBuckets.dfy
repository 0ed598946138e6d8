/**
 The two token buckets: chat messages (server/core/server.py) and voice joins
 (server/auth/voice_rate_limit.py).  Token counts and clock readings are reals.
 */
module TokenBuckets {
  import opened CallHistories

  // ------------------------------------------------------------ one bucket

  datatype Policy = Policy(capacity: real, rate: real)

  datatype Bucket = Bucket(tokens: real, last: real)

  datatype Outcome = Outcome(allowed: bool, bucket: Bucket)

  const CHAT := Policy(5.0, 0.5)
  const VOICE := Policy(2.0, 0.25)

  /** A policy either limiter could use: room for at least one token, refilled over time. */
  predicate Sound(p: Policy) {
    p.capacity >= 1.0 && p.rate > 0.0
  }

  function Min(a: real, b: real): real {
    if a <= b then a else b
  }

  /** Tokens gained over a stretch of time. */
  function Refill(p: Policy, elapsed: real): real {
    elapsed * p.rate
  }

  /** One call: refill for the time elapsed, up to capacity, then spend a token if there is one. */
  function Consume(p: Policy, b: Bucket, now: real): Outcome {
    var tokens := Min(p.capacity, b.tokens + Refill(p, now - b.last));
    if tokens >= 1.0 then Outcome(true, Bucket(tokens - 1.0, now)) else Outcome(false, Bucket(tokens, now))
  }

  // -------------------------------------------------------------- limiters

  /** The bucket a username starts from when it has none yet. */
  function BucketOf(m: map<string, Bucket>, user: string, p: Policy, now: real): Bucket {
    if user in m then m[user] else Bucket(p.capacity, now)
  }

  class ChatLimiter {
    var chatTokens: map<string, real>
    var chatLastRefill: map<string, real>

    /** Both dictionaries are always written together. */
    ghost predicate Valid() reads this {
      chatTokens.Keys == chatLastRefill.Keys
    }

    ghost function Buckets(): map<string, Bucket>
      requires Valid()
      reads this
    {
      map u | u in chatTokens :: Bucket(chatTokens[u], chatLastRefill[u])
    }

    constructor ()
      ensures Valid() && Buckets() == map[]
    {
      chatTokens, chatLastRefill := map[], map[];
    }

    method CheckChatRate(username: string, now: real) returns (ok: bool)
      requires Valid()
      modifies this
      ensures Valid()
      ensures ok == Consume(CHAT, BucketOf(old(Buckets()), username, CHAT, now), now).allowed
      ensures Buckets()
           == old(Buckets())[username := Consume(CHAT, BucketOf(old(Buckets()), username, CHAT, now), now).bucket]
    {
      var last := if username in chatLastRefill then chatLastRefill[username] else now;
      var tokens := if username in chatTokens then chatTokens[username] else CHAT.capacity;
      tokens := Min(CHAT.capacity, tokens + (now - last) * CHAT.rate);
      chatLastRefill := chatLastRefill[username := now];
      if tokens < 1.0 {
        chatTokens := chatTokens[username := tokens];
        return false;
      }
      chatTokens := chatTokens[username := tokens - 1.0];
      return true;
    }
  }

  class VoiceBucket {
    var tokens: real
    var lastRefill: real

    constructor (capacity: real, now: real)
      ensures tokens == capacity && lastRefill == now
    {
      tokens, lastRefill := capacity, now;
    }
  }

  class VoiceRateLimiter {
    var buckets: map<string, VoiceBucket>

    /** No two usernames share a bucket object. */
    ghost predicate Valid() reads this {
      forall u, v :: u in buckets && v in buckets && u != v ==> buckets[u] != buckets[v]
    }

    ghost function Buckets(): map<string, Bucket>
      reads this, buckets.Values
    {
      map u | u in buckets :: Bucket(buckets[u].tokens, buckets[u].lastRefill)
    }

    constructor ()
      ensures Valid() && Buckets() == map[]
    {
      buckets := map[];
    }

    /** `created` is the clock reading taken when a missing bucket is built, just before `now`. */
    method TryConsume(username: string, created: real, now: real) returns (ok: bool)
      requires Valid() && created <= now
      modifies this, buckets.Values
      ensures Valid()
      ensures forall b :: b in buckets.Values && b !in old(buckets.Values) ==> fresh(b)
      ensures ok == Consume(VOICE, BucketOf(old(Buckets()), username, VOICE, now), now).allowed
      ensures Buckets()
           == old(Buckets())[username := Consume(VOICE, BucketOf(old(Buckets()), username, VOICE, now), now).bucket]
    {
      if username !in buckets {
        var built := new VoiceBucket(VOICE.capacity, created);
        buckets := buckets[username := built];
      }
      var bucket := buckets[username];
      var elapsed := now - bucket.lastRefill;
      bucket.tokens := Min(VOICE.capacity, bucket.tokens + elapsed * VOICE.rate);
      bucket.lastRefill := now;
      ok := bucket.tokens >= 1.0;
      if ok {
        bucket.tokens := bucket.tokens - 1.0;
      }
    }

    method RemoveUser(username: string)
      requires Valid()
      modifies this
      ensures Valid() && Buckets() == old(Buckets()) - {username}
    {
      buckets := buckets - {username};
    }
  }

  // ------------------------------------------------- histories of one user

  /** The bucket just before call n of a history; the first call finds a full one. */
  function BucketBefore(p: Policy, times: seq<real>, n: nat): Bucket
    requires n < |times|
  {
    if n == 0 then Bucket(p.capacity, times[0])
    else Consume(p, BucketBefore(p, times, n - 1), times[n - 1]).bucket
  }

  /** Call n of a history. */
  function CallAt(p: Policy, times: seq<real>, n: nat): Outcome
    requires n < |times|
  {
    Consume(p, BucketBefore(p, times, n), times[n])
  }

  /** How many of the calls i..j, both included, were allowed. */
  function AllowedBetween(p: Policy, times: seq<real>, i: nat, j: nat): nat
    requires i <= j < |times|
  {
    (if CallAt(p, times, j).allowed then 1 else 0) + if i == j then 0 else AllowedBetween(p, times, i, j - 1)
  }

  // --------------------------------------------------------------- lemmas

  lemma RefillIsNonNegative(p: Policy, elapsed: real)
    requires Sound(p) && elapsed >= 0.0
    ensures Refill(p, elapsed) >= 0.0
  {
  }

  /** Refill adds up over consecutive stretches of time. */
  lemma RefillAddsUp(p: Policy, a: real, b: real)
    ensures Refill(p, a + b) == Refill(p, a) + Refill(p, b)
  {
  }

  /** Waiting 1/rate earns a whole token. */
  lemma WaitRefillsOne(p: Policy, elapsed: real)
    requires Sound(p) && elapsed >= 1.0 / p.rate
    ensures Refill(p, elapsed) >= 1.0
  {
    var wait := 1.0 / p.rate;
    assert Refill(p, wait) == 1.0;
    RefillIsNonNegative(p, elapsed - wait);
    RefillAddsUp(p, wait, elapsed - wait);
    assert wait + (elapsed - wait) == elapsed;
  }

  /** One call on a bucket in range leaves it in range, and spends no more than it held or gained. */
  lemma ConsumeStaysInRange(p: Policy, b: Bucket, now: real)
    requires Sound(p) && 0.0 <= b.tokens <= p.capacity && b.last <= now
    ensures var o := Consume(p, b, now);
            var total := (if o.allowed then 1.0 else 0.0) + o.bucket.tokens;
            && 0.0 <= o.bucket.tokens <= p.capacity && o.bucket.last == now
            && b.tokens <= total <= p.capacity
            && total <= b.tokens + Refill(p, now - b.last)
  {
    RefillIsNonNegative(p, now - b.last);
  }

  /** The bucket before any call of a history holds between nothing and its capacity. */
  lemma {:induction false} TokensInRange(p: Policy, times: seq<real>, n: nat)
    requires Sound(p) && Ordered(times) && n < |times|
    ensures 0.0 <= BucketBefore(p, times, n).tokens <= p.capacity
    ensures BucketBefore(p, times, n).last == times[if n == 0 then 0 else n - 1]
  {
    if n == 0 {
    } else {
      TokensInRange(p, times, n - 1);
      ConsumeStaysInRange(p, BucketBefore(p, times, n - 1), times[n - 1]);
    }
  }

  /** Tokens spent plus tokens left never exceed a full bucket plus what was refilled since. */
  lemma {:induction false} SpentPlusLeft(p: Policy, times: seq<real>, i: nat, j: nat)
    requires Sound(p) && Ordered(times) && i <= j < |times|
    ensures AllowedBetween(p, times, i, j) as real + CallAt(p, times, j).bucket.tokens
         <= p.capacity + Refill(p, times[j] - times[i])
  {
    hide Refill, Consume;
    TokensInRange(p, times, j);
    ConsumeStaysInRange(p, BucketBefore(p, times, j), times[j]);
    if i == j {
      RefillIsNonNegative(p, 0.0);
    } else {
      SpentPlusLeft(p, times, i, j - 1);
      RefillAddsUp(p, times[j - 1] - times[i], times[j] - times[j - 1]);
      assert (times[j - 1] - times[i]) + (times[j] - times[j - 1]) == times[j] - times[i];
    }
  }

  // --------------------------------------------------------- main results

  /** Between any two calls the number allowed is at most capacity + rate * (time between them). */
  lemma AllowedIsBounded(p: Policy, times: seq<real>, i: nat, j: nat)
    requires Sound(p) && Ordered(times) && i <= j < |times|
    ensures AllowedBetween(p, times, i, j) as real <= p.capacity + Refill(p, times[j] - times[i])
  {
    SpentPlusLeft(p, times, i, j);
    TokensInRange(p, times, j);
    ConsumeStaysInRange(p, BucketBefore(p, times, j), times[j]);
  }

  /** A caller who waits at least 1/rate since the last call is always allowed. */
  lemma WaitingIsRewarded(p: Policy, times: seq<real>, n: nat)
    requires Sound(p) && Ordered(times) && 0 < n < |times|
    requires times[n] - times[n - 1] >= 1.0 / p.rate
    ensures CallAt(p, times, n).allowed
  {
    TokensInRange(p, times, n);
    WaitRefillsOne(p, times[n] - BucketBefore(p, times, n).last);
  }

  /** The first `capacity` calls are always allowed, however fast they come. */
  lemma {:induction false} BurstIsAllowed(p: Policy, times: seq<real>, n: nat)
    requires Sound(p) && Ordered(times) && n < |times| && (n + 1) as real <= p.capacity
    ensures CallAt(p, times, n).allowed
    ensures CallAt(p, times, n).bucket.tokens >= p.capacity - (n + 1) as real
  {
    TokensInRange(p, times, n);
    if n > 0 {
      BurstIsAllowed(p, times, n - 1);
    }
    ConsumeStaysInRange(p, BucketBefore(p, times, n), times[n]);
    RefillIsNonNegative(p, times[n] - BucketBefore(p, times, n).last);
  }

  // ------------------------------------------------------- the exact law

  /** How many calls from i on were allowed before call n. */
  function AllowedBefore(p: Policy, times: seq<real>, i: nat, n: nat): nat
    requires i <= n < |times|
  {
    if i == n then 0 else AllowedBetween(p, times, i, n - 1)
  }

  /** The tokens there are when call n comes. */
  function Available(p: Policy, times: seq<real>, n: nat): real
    requires n < |times|
  {
    Min(p.capacity, BucketBefore(p, times, n).tokens + Refill(p, times[n] - BucketBefore(p, times, n).last))
  }

  /** What would be there had the bucket been full at call i. */
  function FullSince(p: Policy, times: seq<real>, i: nat, n: nat): real
    requires i <= n < |times|
  {
    p.capacity + Refill(p, times[n] - times[i]) - AllowedBefore(p, times, i, n) as real
  }

  /** From one call to the next: what was there, less what was spent, plus what time adds, up to capacity. */
  lemma AvailableNext(p: Policy, times: seq<real>, n: nat)
    requires n + 1 < |times|
    ensures CallAt(p, times, n).allowed <==> Available(p, times, n) >= 1.0
    ensures Available(p, times, n + 1)
         == Min(p.capacity, Available(p, times, n) - (if CallAt(p, times, n).allowed then 1.0 else 0.0)
                            + Refill(p, times[n + 1] - times[n]))
  {
    hide Refill;
  }

  lemma FullSinceNext(p: Policy, times: seq<real>, i: nat, n: nat)
    requires i <= n && n + 1 < |times|
    ensures FullSince(p, times, i, n + 1)
         == FullSince(p, times, i, n) - (if CallAt(p, times, n).allowed then 1.0 else 0.0)
            + Refill(p, times[n + 1] - times[n])
  {
    hide Refill, CallAt;
    RefillAddsUp(p, times[n] - times[i], times[n + 1] - times[n]);
    assert (times[n] - times[i]) + (times[n + 1] - times[n]) == times[n + 1] - times[i];
  }

  lemma FullNow(p: Policy, times: seq<real>, n: nat)
    requires n < |times|
    ensures FullSince(p, times, n, n) == p.capacity
  {
    assert times[n] - times[n] == 0.0;
  }

  /** What is there is the least of what there would be had the bucket been full at any one call so far. */
  lemma {:induction false} AvailableIsLeast(p: Policy, times: seq<real>, n: nat) returns (i: nat)
    requires Sound(p) && Ordered(times) && n < |times|
    ensures i <= n && Available(p, times, n) == FullSince(p, times, i, n)
    ensures forall k :: 0 <= k <= n ==> Available(p, times, n) <= FullSince(p, times, k, n)
  {
    FullNow(p, times, n);
    if n == 0 {
      i := 0;
      RefillIsNonNegative(p, 0.0);
    } else {
      hide Available, FullSince, CallAt, Refill;
      i := AvailableIsLeast(p, times, n - 1);
      AvailableNext(p, times, n - 1);
      forall k | 0 <= k < n
        ensures FullSince(p, times, k, n)
             == FullSince(p, times, k, n - 1) - (if CallAt(p, times, n - 1).allowed then 1.0 else 0.0)
                + Refill(p, times[n] - times[n - 1])
      {
        FullSinceNext(p, times, k, n - 1);
      }
      if Available(p, times, n) == p.capacity {
        i := n;
      }
    }
  }

  /** Would one more call at n stay, with those allowed since call i, within the capacity plus what the rate adds
      in that time? */
  predicate Within(p: Policy, times: seq<real>, i: nat, n: nat)
    requires i <= n < |times|
  {
    AllowedBefore(p, times, i, n) as real + 1.0 <= p.capacity + (times[n] - times[i]) * p.rate
  }

  lemma WithinMeans(p: Policy, times: seq<real>, i: nat, n: nat)
    requires i <= n < |times|
    ensures Within(p, times, i, n) <==> FullSince(p, times, i, n) >= 1.0
  {
    hide AllowedBefore;
  }

  /** A call is allowed if and only if, together with the calls allowed since any earlier one, it stays within
      the capacity plus what the rate adds in that time: nothing is refused without need. */
  lemma AllowedIff(p: Policy, times: seq<real>, n: nat)
    requires Sound(p) && Ordered(times) && n < |times|
    ensures CallAt(p, times, n).allowed <==> forall i :: 0 <= i <= n ==> Within(p, times, i, n)
  {
    hide Available, FullSince, Within, CallAt;
    var least := AvailableIsLeast(p, times, n);
    AllowedWhenAvailable(p, times, n);
    forall i | 0 <= i <= n ensures Within(p, times, i, n) <==> FullSince(p, times, i, n) >= 1.0 {
      WithinMeans(p, times, i, n);
    }
  }

  lemma AllowedWhenAvailable(p: Policy, times: seq<real>, n: nat)
    requires n < |times|
    ensures CallAt(p, times, n).allowed <==> Available(p, times, n) >= 1.0
  {
    hide Refill, BucketBefore;
  }

  /** After a pause of capacity/rate the bucket is full again: the next `capacity` calls are all allowed. */
  lemma {:induction false} PauseRefills(p: Policy, times: seq<real>, n: nat, k: nat)
    requires Sound(p) && Ordered(times) && 0 < n <= k < |times|
    requires times[n] - times[n - 1] >= p.capacity / p.rate && (k - n + 1) as real <= p.capacity
    ensures CallAt(p, times, k).allowed && Available(p, times, k) >= p.capacity - (k - n) as real
    decreases k
  {
    hide BucketBefore, Refill;
    if k == n {
      TokensInRange(p, times, n);
      PauseFills(p, times[n] - times[n - 1]);
    } else {
      PauseRefills(p, times, n, k - 1);
      AvailableNext(p, times, k - 1);
      RefillIsNonNegative(p, times[k] - times[k - 1]);
    }
  }

  lemma PauseFills(p: Policy, elapsed: real)
    requires Sound(p) && elapsed >= p.capacity / p.rate
    ensures Refill(p, elapsed) >= p.capacity
  {
    var pause := p.capacity / p.rate;
    assert Refill(p, pause) == p.capacity;
    RefillIsNonNegative(p, elapsed - pause);
    RefillAddsUp(p, pause, elapsed - pause);
    assert pause + (elapsed - pause) == elapsed;
  }

  /** In numbers: a chat message goes through exactly if fewer than five plus one for every two seconds did in each
      stretch up to now, and a voice join if fewer than two plus one for every four seconds did. */
  lemma AllowedInNumbers(times: seq<real>, n: nat)
    requires Ordered(times) && n < |times|
    ensures CallAt(CHAT, times, n).allowed <==>
              forall i :: 0 <= i <= n ==>
                AllowedBefore(CHAT, times, i, n) as real + 1.0 <= 5.0 + (times[n] - times[i]) / 2.0
    ensures CallAt(VOICE, times, n).allowed <==>
              forall i :: 0 <= i <= n ==>
                AllowedBefore(VOICE, times, i, n) as real + 1.0 <= 2.0 + (times[n] - times[i]) / 4.0
  {
    hide CallAt, AllowedBefore;
    AllowedIff(CHAT, times, n);
    AllowedIff(VOICE, times, n);
    assert forall i :: 0 <= i <= n ==>
             (Within(CHAT, times, i, n) <==>
                AllowedBefore(CHAT, times, i, n) as real + 1.0 <= 5.0 + (times[n] - times[i]) / 2.0);
    assert forall i :: 0 <= i <= n ==>
             (Within(VOICE, times, i, n) <==>
                AllowedBefore(VOICE, times, i, n) as real + 1.0 <= 2.0 + (times[n] - times[i]) / 4.0);
  }

  // --------------------------------------------- users do not interact

  function TableAfter(p: Policy, calls: seq<Call>): map<string, Bucket> {
    if calls == [] then map[]
    else
      var c := calls[|calls| - 1];
      var before := TableAfter(p, calls[..|calls| - 1]);
      before[c.key := Consume(p, BucketOf(before, c.key, p, c.time), c.time).bucket]
  }

  /** Earlier calls do not depend on later ones. */
  lemma {:induction false} BucketBeforePrefix(p: Policy, times: seq<real>, now: real, n: nat)
    requires n < |times|
    ensures BucketBefore(p, times + [now], n) == BucketBefore(p, times, n)
  {
    if n == 0 {
    } else {
      BucketBeforePrefix(p, times, now, n - 1);
    }
  }

  /** In a mixed run each user's bucket is the one of its own history alone. */
  lemma {:induction false} UsersDoNotInteract(p: Policy, calls: seq<Call>, user: string)
    ensures var ts := TimesOf(calls, user);
            if ts == [] then user !in TableAfter(p, calls)
            else user in TableAfter(p, calls) && TableAfter(p, calls)[user] == CallAt(p, ts, |ts| - 1).bucket
  {
    if calls == [] {
    } else {
      var before, c := calls[..|calls| - 1], calls[|calls| - 1];
      UsersDoNotInteract(p, before, user);
      var ts := TimesOf(before, user);
      if c.key == user {
        if ts != [] {
          BucketBeforePrefix(p, ts, c.time, |ts| - 1);
          assert BucketBefore(p, ts + [c.time], |ts|) == CallAt(p, ts, |ts| - 1).bucket;
        }
      } else {
        assert TimesOf(calls, user) == ts;
      }
    }
  }
}
