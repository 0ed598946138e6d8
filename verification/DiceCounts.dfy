/** Counting dice and finding runs among them (server/game_utils/dice.py). */
module DiceCounts {
  import opened Wrappers

  /** What can be asked about: some dice, or counts made earlier. */
  datatype Input = Dice(values: seq<int>) | Counted(counts: map<int, int>)

  /** How often a value is shown. */
  function Shown(input: Input, v: int): int {
    match input
    case Dice(values) => multiset(values)[v]
    case Counted(counts) => if v in counts then counts[v] else 0
  }

  /** The values with an entry: the faces of the dice, and whatever else is given. */
  predicate HasEntry(input: Input, sides: int, v: int) {
    1 <= v <= sides || (if input.Dice? then v in input.values else v in input.counts)
  }

  function Faces(sides: int): (faces: set<int>)
    ensures forall v :: v in faces <==> 1 <= v <= sides
    decreases sides
  {
    if sides <= 0 then {} else Faces(sides - 1) + {sides}
  }

  /** How often each value is shown; every face of the dice has an entry, and so has any other value shown. */
  method CountDice(dice: seq<int>, sides: int) returns (counts: map<int, int>)
    ensures forall v :: v in counts <==> 1 <= v <= sides || v in dice
    ensures forall v :: v in counts ==> counts[v] == multiset(dice)[v]
  {
    counts := map i | i in Faces(sides) :: 0;
    for k := 0 to |dice|
      invariant forall v :: v in counts <==> 1 <= v <= sides || v in dice[..k]
      invariant forall v :: v in counts ==> counts[v] == multiset(dice[..k])[v]
    {
      assert dice[..k + 1] == dice[..k] + [dice[k]];
      var value := dice[k];
      counts := counts[value := (if value in counts then counts[value] else 0) + 1];
    }
    assert dice[..|dice|] == dice;
  }

  /** Dice or counts made uniform: each entry says how often its value is shown. */
  method CoerceCounts(input: Input, sides: int) returns (counts: map<int, int>)
    ensures forall v :: v in counts <==> HasEntry(input, sides, v)
    ensures forall v :: v in counts ==> counts[v] == Shown(input, v)
  {
    match input {
      case Dice(values) =>
        counts := CountDice(values, sides);
      case Counted(given) =>
        counts := map i | i in Faces(sides) :: if i in given then given[i] else 0;
        var rest := given.Keys;
        while rest != {}
          invariant rest <= given.Keys
          invariant forall v :: v in counts <==> 1 <= v <= sides || (v in given && v !in rest)
          invariant forall v :: v in counts ==> counts[v] == Shown(input, v)
          decreases |rest|
        {
          HasSome(rest);
          var key :| key in rest;
          rest := rest - {key};
          if key !in counts {
            counts := counts[key := given[key]];
          }
        }
    }
  }

  /** Does a value count for a run: is it shown, and once only if so asked? */
  predicate Counts(input: Input, v: int, unique: bool) {
    Shown(input, v) > 0 && (!unique || Shown(input, v) == 1)
  }

  ghost predicate RunAt(input: Input, start: int, length: int, unique: bool) {
    forall v :: start <= v < start + length ==> Counts(input, v, unique)
  }

  lemma HasSome(s: set<int>)
    requires s != {}
    ensures exists x :: x in s
  {
    assert (forall x :: x !in s) ==> s == {};
  }

  /** The largest value counted, or zero if there is none. */
  method Largest(counts: map<int, int>) returns (m: int)
    ensures counts == map[] ==> m == 0
    ensures counts != map[] ==> m in counts && forall v :: v in counts ==> v <= m
  {
    if counts == map[] {
      return 0;
    }
    var rest := counts.Keys;
    HasSome(rest);
    m :| m in rest;
    while rest != {}
      invariant m in counts && rest <= counts.Keys
      invariant forall v :: v in counts && v !in rest ==> v <= m
      decreases |rest|
    {
      HasSome(rest);
      var v :| v in rest;
      rest := rest - {v};
      if v > m {
        m := v;
      }
    }
  }

  lemma OnlyEntriesAreShown(input: Input, sides: int, v: int)
    ensures Shown(input, v) != 0 ==> HasEntry(input, sides, v)
  {
  }

  /** Is there a run of consecutive values of this length?  A length below one asks for a single value;
      without a bound the largest value that has an entry is one. */
  method HasConsecutiveRun(input: Input, length: int, min: int, max: Option<int>, unique: bool, sides: int)
    returns (found: bool, top: int)
    ensures if max.Some? && max.value != 0 then top == max.value
            else if forall v :: !HasEntry(input, sides, v) then top == 0
            else HasEntry(input, sides, top) && forall v :: HasEntry(input, sides, v) ==> v <= top
    ensures var n := if length < 1 then 1 else length;
            found <==> exists start :: min <= start <= top - n + 1 && RunAt(input, start, n, unique)
  {
    hide HasEntry, Shown;
    var counts := CoerceCounts(input, sides);
    if max.Some? && max.value != 0 {
      top := max.value;
    } else {
      top := Largest(counts);
      assert counts == map[] <==> forall v :: v !in counts;
    }
    ghost var n := if length < 1 then 1 else length;
    var run, value := 0, min;
    while value <= top
      invariant 0 <= run < n && run <= value - min && (value <= top + 1 || value == min)
      invariant RunAt(input, value - run, run, unique)
      invariant value - run > min ==> !Counts(input, value - run - 1, unique)
      invariant forall start :: min <= start && start + n <= value ==> !RunAt(input, start, n, unique)
      decreases top + 1 - value
    {
      OnlyEntriesAreShown(input, sides, value);
      var count := if value in counts then counts[value] else 0;
      if count > 0 && (!unique || count == 1) {
        run := run + 1;
        if run >= length {
          assert RunAt(input, value + 1 - run, run, unique);
          return true, top;
        }
      } else {
        run := 0;
      }
      value := value + 1;
      forall start | min <= start && start + n == value ensures !RunAt(input, start, n, unique) {
        if run > 0 {
          assert !Counts(input, value - run - 1, unique) && start <= value - run - 1 < start + n;
        } else {
          assert !Counts(input, value - 1, unique) && start <= value - 1 < start + n;
        }
      }
    }
    return false, top;
  }
}
