/** Calls on any mixture of keys, and the histories of single keys in them. */
module CallHistories {
  datatype Call = Call(key: string, time: real)

  /** A non-decreasing clock. */
  ghost predicate Ordered(times: seq<real>) {
    forall i, j :: 0 <= i <= j < |times| ==> times[i] <= times[j]
  }

  /** The times of the calls with one key. */
  function TimesOf(calls: seq<Call>, key: string): seq<real> {
    if calls == [] then []
    else TimesOf(calls[..|calls| - 1], key)
         + if calls[|calls| - 1].key == key then [calls[|calls| - 1].time] else []
  }
}
