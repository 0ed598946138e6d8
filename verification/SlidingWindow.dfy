/**
 The sliding-window attempt limiter of server/core/server.py.

 A bucket table maps a key (an address or a username) to the timestamps of the
 attempts recorded for it, oldest first.  Timestamps are reals: the monotonic
 clock never goes back and rounding is not the point here.
 */
module SlidingWindow {
  import opened CallHistories

  // ------------------------------------------------------------ one deque

  /** The deque once every timestamp that fell out of the window is popped from its left end. */
  function Pruned(dq: seq<real>, window: real, now: real): seq<real> {
    if dq != [] && now - dq[0] > window then Pruned(dq[1..], window, now) else dq
  }

  datatype Attempt = Attempt(allowed: bool, deque: seq<real>)

  /** One attempt against a deque: the decision, and the deque it leaves behind. */
  function Try(dq: seq<real>, limit: int, window: real, now: real): Attempt {
    if limit <= 0 then Attempt(true, dq)
    else
      var live := Pruned(dq, window, now);
      if |live| >= limit then Attempt(false, live) else Attempt(true, live + [now])
  }

  // ------------------------------------------------------- the bucket table

  /** The timestamps held for a key; a key that is absent holds none. */
  function Held(entries: map<string, seq<real>>, key: string): seq<real> {
    if key in entries then entries[key] else []
  }

  class AttemptTable {
    var entries: map<string, seq<real>>

    constructor ()
      ensures entries == map[]
    {
      entries := map[];
    }

    /** Records and evaluates an attempt.  A limit of zero or less disables the limiter. */
    method AllowAttempt(key: string, limit: int, window: real, now: real) returns (ok: bool)
      modifies this
      ensures ok == Try(Held(old(entries), key), limit, window, now).allowed
      ensures entries == if limit <= 0 then old(entries)
                         else old(entries)[key := Try(Held(old(entries), key), limit, window, now).deque]
    {
      if limit <= 0 {
        return true;
      }
      if key !in entries {
        entries := entries[key := []];
      }
      var dq := entries[key];
      while dq != [] && now - dq[0] > window
        invariant Pruned(dq, window, now) == Pruned(Held(old(entries), key), window, now)
      {
        dq := dq[1..];
      }
      entries := entries[key := dq];
      if |dq| >= limit {
        return false;
      }
      entries := entries[key := dq + [now]];
      return true;
    }

    /** Counts the recorded attempts still inside the window, dropping a key left with none. */
    method GetAttemptCount(key: string, window: real, now: real) returns (count: nat)
      modifies this
      ensures count == |Pruned(Held(old(entries), key), window, now)|
      ensures Held(entries, key) == Pruned(Held(old(entries), key), window, now)
      ensures entries - {key} == old(entries) - {key}
      ensures count == 0 && Held(old(entries), key) != [] ==> key !in entries
    {
      if key !in entries || entries[key] == [] {
        return 0;
      }
      var dq := entries[key];
      while dq != [] && now - dq[0] > window
        invariant Pruned(dq, window, now) == Pruned(Held(old(entries), key), window, now)
      {
        dq := dq[1..];
      }
      if dq == [] {
        entries := entries - {key};
        return 0;
      }
      entries := entries[key := dq];
      return |dq|;
    }

    /** Appends a timestamp without evaluating it. */
    method RecordAttempt(key: string, now: real)
      modifies this
      ensures entries == old(entries)[key := Held(old(entries), key) + [now]]
    {
      if key !in entries {
        entries := entries[key := []];
      }
      entries := entries[key := entries[key] + [now]];
    }
  }

  // ------------------------------------------------- histories of one key

  /** The deque after a whole history of attempts, starting from none. */
  function DequeAfter(times: seq<real>, limit: int, window: real): seq<real> {
    if times == [] then []
    else Try(DequeAfter(times[..|times| - 1], limit, window), limit, window, times[|times| - 1]).deque
  }

  /** Is the last attempt of a non-empty history let through? */
  predicate LastAllowed(times: seq<real>, limit: int, window: real)
    requires times != []
  {
    Try(DequeAfter(times[..|times| - 1], limit, window), limit, window, times[|times| - 1]).allowed
  }

  /** The timestamps of the attempts let through, in order. */
  function AllowedTimes(times: seq<real>, limit: int, window: real): seq<real> {
    if times == [] then []
    else
      var before := AllowedTimes(times[..|times| - 1], limit, window);
      if LastAllowed(times, limit, window) then before + [times[|times| - 1]] else before
  }

  /** How many of the timestamps lie in the closed interval [lo, hi]. */
  function CountIn(times: seq<real>, lo: real, hi: real): nat {
    if times == [] then 0
    else CountIn(times[..|times| - 1], lo, hi) + if lo <= times[|times| - 1] <= hi then 1 else 0
  }

  // --------------------------------------------------------------- lemmas

  /** Pruning an ordered deque cuts it exactly at the window's edge. */
  lemma {:induction false} PrunedCuts(dq: seq<real>, window: real, now: real) returns (k: nat)
    requires Ordered(dq)
    ensures k <= |dq| && Pruned(dq, window, now) == dq[k..]
    ensures forall i :: 0 <= i < k ==> now - dq[i] > window
    ensures forall i :: k <= i < |dq| ==> now - dq[i] <= window
  {
    if dq != [] && now - dq[0] > window {
      var k' := PrunedCuts(dq[1..], window, now);
      k := k' + 1;
      forall i | 0 <= i < |dq| ensures i < k <==> now - dq[i] > window {
        if i > 0 { assert dq[i] == dq[1..][i - 1]; }
      }
    } else {
      k := 0;
    }
  }

  /** Counting an ordered sequence inside an interval that starts at index k and takes in the rest. */
  lemma {:induction false} CountTail(s: seq<real>, k: nat, lo: real, hi: real)
    requires k <= |s|
    requires forall i :: 0 <= i < k ==> s[i] < lo
    requires forall i :: k <= i < |s| ==> lo <= s[i] <= hi
    ensures CountIn(s, lo, hi) == |s| - k
  {
    if s == [] {
    } else {
      var t := s[..|s| - 1];
      CountTail(t, if k < |s| then k else |t|, lo, hi);
    }
  }

  /** Any `limit + 1` consecutive timestamps span more than a window. */
  ghost predicate Spaced(s: seq<real>, limit: int, window: real) {
    forall i, j :: 0 <= i && j == i + limit && i <= j < |s| ==> s[j] - s[i] > window
  }

  /** What every history keeps between its allowed attempts and its deque: the deque is the recent
      end of the allowed attempts, and any `limit + 1` consecutive allowed attempts span more than a
      window. */
  ghost predicate LogInv(allowed: seq<real>, dq: seq<real>, limit: int, window: real, last: real, cut: nat) {
    && Ordered(allowed)
    && cut <= |allowed| && dq == allowed[cut..]
    && |dq| <= limit
    && (forall i :: 0 <= i < |allowed| ==> allowed[i] <= last)
    && (forall i :: 0 <= i < cut ==> last - allowed[i] > window)
    && Spaced(allowed, limit, window)
  }

  /** Letting one more attempt through keeps the spacing when the window held fewer than `limit`. */
  lemma SpacedExtends(s: seq<real>, cut: nat, limit: int, window: real, now: real)
    requires limit > 0 && Spaced(s, limit, window)
    requires cut <= |s| && |s| - cut < limit
    requires forall i :: 0 <= i < cut ==> now - s[i] > window
    ensures Spaced(s + [now], limit, window)
  {
    var t := s + [now];
    forall i, j | 0 <= i && j == i + limit && i <= j < |t| ensures t[j] - t[i] > window {
      if j < |s| {
        assert s[j] - s[i] > window;
      }
    }
  }

  /** Pruning only moves the cut: it lands exactly where the window ending now begins. */
  lemma PruneMovesCut(allowed: seq<real>, dq: seq<real>, limit: int, window: real, last: real, now: real, cut: nat)
    returns (cut': nat)
    requires LogInv(allowed, dq, limit, window, last, cut) && last <= now
    ensures cut <= cut' <= |allowed| && Pruned(dq, window, now) == allowed[cut'..]
    ensures forall i :: 0 <= i < cut' ==> now - allowed[i] > window
    ensures forall i :: cut' <= i < |allowed| ==> now - allowed[i] <= window
  {
    var k := PrunedCuts(dq, window, now);
    cut' := cut + k;
    forall i | 0 <= i < |allowed| ensures i < cut' <==> now - allowed[i] > window {
      if i >= cut { assert allowed[i] == dq[i - cut]; }
    }
  }

  /** One more attempt keeps the invariant. */
  lemma StepKeepsInv(allowed: seq<real>, dq: seq<real>, limit: int, window: real, last: real, now: real, cut: nat)
    returns (cut': nat)
    requires limit > 0 && last <= now && LogInv(allowed, dq, limit, window, last, cut)
    ensures var t := Try(dq, limit, window, now);
            LogInv(if t.allowed then allowed + [now] else allowed, t.deque, limit, window, now, cut')
  {
    cut' := PruneMovesCut(allowed, dq, limit, window, last, now, cut);
    if |allowed| - cut' < limit {
      SpacedExtends(allowed, cut', limit, window, now);
      assert (allowed + [now])[cut'..] == allowed[cut'..] + [now];
    }
  }

  /** The invariant holds after every history on a non-decreasing clock. */
  lemma {:induction false} HistoryKeepsInv(times: seq<real>, limit: int, window: real) returns (cut: nat)
    requires limit > 0 && Ordered(times) && times != []
    ensures LogInv(AllowedTimes(times, limit, window), DequeAfter(times, limit, window),
                   limit, window, times[|times| - 1], cut)
  {
    var n := |times| - 1;
    if n == 0 {
      cut := StepKeepsInv([], [], limit, window, times[0], times[0], 0);
    } else {
      var before := times[..n];
      var cut0 := HistoryKeepsInv(before, limit, window);
      cut := StepKeepsInv(AllowedTimes(before, limit, window), DequeAfter(before, limit, window),
                          limit, window, before[n - 1], times[n], cut0);
    }
  }

  /** At most `limit` of an ordered, well-spaced sequence fit into a closed interval of length `window`. */
  lemma {:induction false} SpacedCount(s: seq<real>, limit: int, window: real, lo: real)
    requires limit > 0 && Ordered(s)
    requires Spaced(s, limit, window)
    ensures CountIn(s, lo, lo + window) <= limit
  {
    if s == [] {
    } else {
      var n := |s| - 1;
      var t := s[..n];
      SpacedCount(t, limit, window, lo);
      if lo <= s[n] <= lo + window && n >= limit {
        assert s[n] - s[n - limit] > window;
        CountAbove(s, n - limit + 1, lo, lo + window);
      } else if n < limit {
        CountAbove(s, 0, lo, lo + window);
      }
    }
  }

  /** If the first k timestamps miss the interval, at most the others are counted. */
  lemma {:induction false} CountAbove(s: seq<real>, k: nat, lo: real, hi: real)
    requires k <= |s|
    requires forall i :: 0 <= i < k ==> s[i] < lo
    ensures CountIn(s, lo, hi) <= |s| - k
  {
    if s == [] {
    } else {
      var t := s[..|s| - 1];
      CountAbove(t, if k < |s| then k else |t|, lo, hi);
    }
  }

  // --------------------------------------------------------- main results

  /** Every closed interval one window long holds at most `limit` allowed attempts. */
  lemma AtMostLimitPerWindow(times: seq<real>, limit: int, window: real, start: real)
    requires limit > 0 && Ordered(times)
    ensures CountIn(AllowedTimes(times, limit, window), start, start + window) <= limit
  {
    if times != [] {
      var cut := HistoryKeepsInv(times, limit, window);
      SpacedCount(AllowedTimes(times, limit, window), limit, window, start);
    }
  }

  /** What survives pruning is what the window ending now holds. */
  lemma WindowHolds(allowed: seq<real>, dq: seq<real>, limit: int, window: real, last: real, now: real, cut: nat)
    requires LogInv(allowed, dq, limit, window, last, cut) && last <= now
    ensures |Pruned(dq, window, now)| == CountIn(allowed, now - window, now) <= limit
  {
    var cut' := PruneMovesCut(allowed, dq, limit, window, last, now, cut);
    CountTail(allowed, cut', now - window, now);
  }

  /** An attempt is denied exactly when `limit` allowed attempts already lie in the window ending
      now; denied attempts never count, so they cannot prolong a lockout. */
  lemma DeniedExactlyWhenFull(times: seq<real>, limit: int, window: real, now: real)
    requires limit > 0 && Ordered(times + [now])
    ensures !LastAllowed(times + [now], limit, window)
        <==> CountIn(AllowedTimes(times, limit, window), now - window, now) == limit
  {
    var all := times + [now];
    assert all[..|times|] == times;
    if times != [] {
      assert forall i :: 0 <= i < |times| ==> times[i] == all[i];
      assert times[|times| - 1] <= all[|times|];
      var cut := HistoryKeepsInv(times, limit, window);
      WindowHolds(AllowedTimes(times, limit, window), DequeAfter(times, limit, window),
                  limit, window, times[|times| - 1], now, cut);
    }
  }

  /** A limit of zero or less turns the limiter off: nothing is denied and nothing recorded. */
  lemma {:induction false} OffAllowsAll(times: seq<real>, limit: int, window: real)
    requires limit <= 0
    ensures DequeAfter(times, limit, window) == []
    ensures times != [] ==> LastAllowed(times, limit, window)
  {
    if times == [] {
    } else {
      OffAllowsAll(times[..|times| - 1], limit, window);
    }
  }

  /** The reported count is the number of recorded timestamps in the window ending now. */
  lemma CountIsExact(dq: seq<real>, window: real, now: real)
    requires Ordered(dq) && forall i :: 0 <= i < |dq| ==> dq[i] <= now
    ensures |Pruned(dq, window, now)| == CountIn(dq, now - window, now)
  {
    var k := PrunedCuts(dq, window, now);
    CountTail(dq, k, now - window, now);
  }

  /** What an earlier call dropped, a later call would have dropped too: no count depends on how
      often the deque was looked at before. */
  lemma {:induction false} EarlierPruningIsHarmless(dq: seq<real>, window: real, now: real, later: real)
    requires now <= later
    ensures Pruned(Pruned(dq, window, now), window, later) == Pruned(dq, window, later)
  {
    if dq != [] && now - dq[0] > window {
      EarlierPruningIsHarmless(dq[1..], window, now, later);
    }
  }

  // --------------------------------------------------- keys do not interact

  /** The table after attempts on any mixture of keys. */
  function TableAfter(calls: seq<Call>, limit: int, window: real): map<string, seq<real>> {
    if calls == [] then map[]
    else
      var c := calls[|calls| - 1];
      var before := TableAfter(calls[..|calls| - 1], limit, window);
      if limit <= 0 then before
      else before[c.key := Try(Held(before, c.key), limit, window, c.time).deque]
  }

  /** In a mixed run each key behaves as if it were alone, so the two bounds hold per key. */
  lemma {:induction false} KeysDoNotInteract(calls: seq<Call>, key: string, limit: int, window: real)
    ensures Held(TableAfter(calls, limit, window), key) == DequeAfter(TimesOf(calls, key), limit, window)
  {
    if calls == [] {
    } else {
      var before, c := calls[..|calls| - 1], calls[|calls| - 1];
      KeysDoNotInteract(before, key, limit, window);
      var ts := TimesOf(before, key);
      if c.key == key {
        assert (ts + [c.time])[..|ts|] == ts;
      } else {
        assert TimesOf(calls, key) == ts;
      }
    }
  }
}
