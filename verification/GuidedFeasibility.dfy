/**
 When an error of a strict allocation pass (server/core/virtual_bots.py) means that the rules cannot all be met,
 and when it does not.
 */
module GuidedFeasibility {
  import opened Arithmetic
  import opened GuidedPass
  import opened GuidedTheorems

  /** An assignment that would satisfy every active rule of a pass. */
  ghost predicate Satisfies(p: Pass, choice: seq<set<string>>) {
    && |choice| == |p.turns|
    && (forall i :: 0 <= i < |choice| && p.turns[i].active ==>
          choice[i] <= p.turns[i].eligible * p.bots && |choice[i]| >= p.turns[i].minBots)
    && (forall i, j :: 0 <= i < j < |choice| ==> choice[i] !! choice[j])
  }

  ghost predicate Feasible(p: Pass) {
    exists choice :: Satisfies(p, choice)
  }

  predicate RaisesStrictly(p: Pass) {
    RunPass(p, map[], true).raised.Some?
  }

  /** What validation guarantees of a rule's minimum and cap. */
  predicate Bounded(t: Turn) {
    0 <= t.minBots && (t.maxBots == 0 || t.minBots <= t.maxBots)
  }

  ghost predicate HeldWithinCaps(turns: seq<Turn>, held: map<string, set<string>>) {
    forall i :: 0 <= i < |turns| && turns[i].maxBots > 0 ==> |HeldBy(held, turns[i].name)| <= turns[i].maxBots
  }

  /** How many of the bots it shares with a later rule a rule cannot do without. */
  function Needed(first: Turn, second: Turn): nat {
    Max(0, first.minBots - |first.eligible - second.eligible|)
  }

  /** The earlier of two rules can take nothing from the later one that it could do without: the later needs
      nobody, the earlier needs all they share, its cap stops it at what it needs, or there are too few bots
      for both to begin with. */
  predicate Fits(first: Turn, second: Turn) {
    || second.minBots == 0
    || Needed(first, second) >= |first.eligible * second.eligible|
    || (first.maxBots > 0 && Needed(first, second) >= first.maxBots)
    || Needed(first, second) + second.minBots > |second.eligible|
  }

  // ------------------------------------------------ an error means infeasible

  /** A pass that does not raise has found an assignment. */
  lemma SuccessIsFeasible(p: Pass)
    requires !RaisesStrictly(p)
    ensures Feasible(p)
  {
    hide Given, RunPass;
    StrictPassRaisesIff(p, map[], true);
    var choice := seq(|p.turns|, i requires 0 <= i < |p.turns| => Given(p, i));
    forall i | 0 <= i < |choice| && p.turns[i].active
      ensures choice[i] <= p.turns[i].eligible * p.bots && |choice[i]| >= p.turns[i].minBots
    {
      GivenBotsAreEligible(p, i);
      assert !Short(p, i);
    }
    forall i, j | 0 <= i < j < |choice| ensures choice[i] !! choice[j] {
      RulesAreDisjoint(p, i, j);
    }
    assert Satisfies(p, choice);
  }

  /** What fitting comes to where both rules can be satisfied: they share nobody, or the earlier takes all its
      bots anyway, or it takes an exact number of bots that the later could all use. */
  lemma FitsMeans(first: Turn, second: Turn, a: set<string>, b: set<string>)
    requires Bounded(first) && second.minBots > 0 && Fits(first, second)
    requires a <= first.eligible && |a| >= first.minBots && b <= second.eligible && |b| >= second.minBots && a !! b
    ensures || first.eligible !! second.eligible
            || a == first.eligible
            || (first.eligible <= second.eligible && first.minBots == first.maxBots && first.maxBots > 0)
  {
    var only, shared := first.eligible - second.eligible, first.eligible * second.eligible;
    assert first.eligible == only + shared;
    assert first.eligible + second.eligible == only + second.eligible;
    SubsetSize(a, first.eligible);
    SubsetSize(b, second.eligible);
    SubsetSize(a + b, first.eligible + second.eligible);
    assert |a + b| == |a| + |b|;
    if only == {} {
      assert first.eligible <= second.eligible;
    }
  }

  /** Is rule i one that takes an exact number of bots, all of them bots that rule j could use? */
  predicate Nested(p: Pass, i: nat, j: nat)
    requires i < |p.turns| && j < |p.turns|
  {
    var a, b := p.turns[i], p.turns[j];
    a.active && a.eligible <= b.eligible && a.minBots == a.maxBots && a.maxBots > 0
  }

  /** The bots an assignment gives to the rules nested in rule j. */
  function Reserve(p: Pass, choice: seq<set<string>>, j: nat, n: nat): set<string>
    requires |choice| == |p.turns| && n <= j < |p.turns|
  {
    if n == 0 then {} else Reserve(p, choice, j, n - 1) + if Nested(p, n - 1, j) then choice[n - 1] else {}
  }

  /** The bots those rules are given in the pass. */
  function Used(p: Pass, j: nat, n: nat): set<string>
    requires n <= j < |p.turns|
  {
    if n == 0 then {} else Used(p, j, n - 1) + if Nested(p, n - 1, j) then Given(p, n - 1) else {}
  }

  lemma {:induction false} ReserveMembers(p: Pass, choice: seq<set<string>>, j: nat, n: nat)
    requires Satisfies(p, choice) && n <= j < |p.turns|
    ensures Reserve(p, choice, j, n) <= p.turns[j].eligible * p.bots
    ensures forall i :: n <= i < |choice| ==> Reserve(p, choice, j, n) !! choice[i]
    ensures forall i :: 0 <= i < n && !Nested(p, i, j) ==> Reserve(p, choice, j, n) !! choice[i]
  {
    if n == 0 {
    } else {
      ReserveMembers(p, choice, j, n - 1);
    }
  }

  /** The nested rules are given no more bots than the assignment gives them. */
  lemma {:induction false} UsedIsCovered(p: Pass, choice: seq<set<string>>, j: nat, n: nat)
    requires Satisfies(p, choice) && n <= j < |p.turns| && HeldWithinCaps(p.turns, p.held)
    ensures |Used(p, j, n)| <= |Reserve(p, choice, j, n)|
  {
    hide Reserve, Used, Given, Satisfies, Nested, HeldWithinCaps;
    ReserveAndUsed(p, choice, j, n);
    if n == 0 {
    } else {
      UsedIsCovered(p, choice, j, n - 1);
      if Nested(p, n - 1, j) {
        ReserveMembers(p, choice, j, n - 1);
        NestedIsCovered(p, choice, j, n - 1);
        UnionSize(Reserve(p, choice, j, n - 1), choice[n - 1]);
        UnionSize(Used(p, j, n - 1), Given(p, n - 1));
      }
    }
  }

  lemma ReserveAndUsed(p: Pass, choice: seq<set<string>>, j: nat, n: nat)
    requires Satisfies(p, choice) && n <= j < |p.turns|
    ensures |choice| == |p.turns|
    ensures n == 0 ==> Reserve(p, choice, j, n) == {} && Used(p, j, n) == {}
    ensures n > 0 && Nested(p, n - 1, j) ==>
              && Reserve(p, choice, j, n) == Reserve(p, choice, j, n - 1) + choice[n - 1]
              && Used(p, j, n) == Used(p, j, n - 1) + Given(p, n - 1)
    ensures n > 0 && !Nested(p, n - 1, j) ==>
              Reserve(p, choice, j, n) == Reserve(p, choice, j, n - 1) && Used(p, j, n) == Used(p, j, n - 1)
  {
    hide Given, Nested;
  }

  lemma UnionSize(a: set<string>, b: set<string>)
    ensures |a + b| <= |a| + |b| && (a !! b ==> |a + b| == |a| + |b|)
  {
  }

  lemma NestedIsCovered(p: Pass, choice: seq<set<string>>, j: nat, i: nat)
    requires Satisfies(p, choice) && i < j < |p.turns| && Nested(p, i, j) && HeldWithinCaps(p.turns, p.held)
    ensures |Given(p, i)| <= |choice[i]|
  {
    hide Given;
    SizeIsExact(p, i);
  }

  lemma {:induction false} UsedHas(p: Pass, j: nat, n: nat, i: nat, bot: string)
    requires i < n <= j < |p.turns| && Nested(p, i, j) && bot in Given(p, i)
    ensures bot in Used(p, j, n)
  {
    hide Given, Nested;
    if i < n - 1 {
      UsedHas(p, j, n - 1, i, bot);
    }
  }

  /** Do the active rules before rule j all fit it? */
  predicate FitsEarlier(p: Pass, j: nat)
    requires j < |p.turns|
  {
    forall i :: 0 <= i < j && p.turns[i].active ==> Bounded(p.turns[i]) && Fits(p.turns[i], p.turns[j])
  }

  /** What the assignment keeps for rule j and the rules nested in it, less what those were given, is still
      there at rule j's turn. */
  lemma ReserveIsLeft(p: Pass, choice: seq<set<string>>, j: nat, bot: string)
    requires Satisfies(p, choice) && j < |p.turns| && p.turns[j].active && p.turns[j].minBots > 0 && FitsEarlier(p, j)
    requires bot in choice[j] + Reserve(p, choice, j, j) && bot !in Used(p, j, j)
    ensures bot in Usable(p, j)
  {
    hide Given, Fits, Bounded;
    ReserveMembers(p, choice, j, j);
    if bot in Taken(p, j) {
      TakenBySomeone(p, j, bot);
      var i :| 0 <= i < j && bot in Given(p, i);
      GivenBotsAreEligible(p, i);
      FitsMeans(p.turns[i], p.turns[j], choice[i], choice[j]);
      if Nested(p, i, j) {
        UsedHas(p, j, j, i, bot);
      }
      assert false;
    }
  }

  /** With an assignment to be found, a rule that its predecessors fit gets its minimum. */
  lemma FittingIsServed(p: Pass, choice: seq<set<string>>, j: nat)
    requires Satisfies(p, choice) && j < |p.turns| && HeldWithinCaps(p.turns, p.held)
    requires FitsEarlier(p, j) && Bounded(p.turns[j])
    ensures !Short(p, j)
  {
    hide Given, FitsEarlier, Reserve, Used, Usable;
    if p.turns[j].active && p.turns[j].minBots > 0 {
      var reserve, used := Reserve(p, choice, j, j), Used(p, j, j);
      ReserveMembers(p, choice, j, j);
      UsedIsCovered(p, choice, j, j);
      var left := choice[j] + reserve - used;
      assert |choice[j] + reserve| == |choice[j]| + |reserve|;
      assert |left| >= |choice[j] + reserve| - |used|;
      forall bot | bot in left ensures bot in Usable(p, j) {
        ReserveIsLeft(p, choice, j, bot);
      }
      SubsetSize(left, Usable(p, j));
      SizeIsExact(p, j);
      UsableIs(p, j);
    }
  }

  lemma UsableIs(p: Pass, j: nat)
    requires j < |p.turns|
    ensures Usable(p, j) == p.turns[j].eligible * (p.bots - Taken(p, j))
  {
    hide Taken;
  }

  /** Where all active rules fit each other and start within their caps, a strict pass raises if and only if no
      assignment whatever satisfies them all. */
  lemma ErrorMeansInfeasible(p: Pass)
    requires HeldWithinCaps(p.turns, p.held)
    requires forall i :: 0 <= i < |p.turns| ==> Bounded(p.turns[i])
    requires forall i, j :: 0 <= i < j < |p.turns| && p.turns[i].active && p.turns[j].active ==>
               Fits(p.turns[i], p.turns[j])
    ensures RaisesStrictly(p) <==> !Feasible(p)
  {
    hide RunPass, Short, Fits;
    if !RaisesStrictly(p) {
      SuccessIsFeasible(p);
    } else if Feasible(p) {
      var choice :| Satisfies(p, choice);
      forall j | 0 <= j < |p.turns| ensures !Short(p, j) {
        ActiveOrNotShort(p, j);
        if p.turns[j].active {
          FittingIsServed(p, choice, j);
        }
      }
      StrictPassRaisesIff(p, map[], true);
    }
  }

  lemma ActiveOrNotShort(p: Pass, j: nat)
    requires j < |p.turns|
    ensures Short(p, j) ==> p.turns[j].active
  {
  }

  // ------------------------------------------------ an error that need not be

  /** Some of the elements of a set. */
  lemma {:induction false} PickSome(s: set<string>, n: nat) returns (r: set<string>)
    requires n <= |s|
    ensures r <= s && |r| == n
  {
    if n == 0 {
      r := {};
    } else {
      var x :| x in s;
      r := PickSome(s - {x}, n - 1);
      r := r + {x};
    }
  }

  lemma {:induction false} NothingTaken(p: Pass, n: nat)
    requires n <= |p.turns| && forall k :: 0 <= k < n ==> !p.turns[k].active
    ensures Taken(p, n) == {}
  {
    if n == 0 {
    } else {
      NothingTaken(p, n - 1);
    }
  }

  /** Two rules that do not fit, with bots for both, shared out so that the earlier holds one it could do
      without. */
  datatype Split = Split(bots: set<string>, held: set<string>, first: set<string>, second: set<string>)

  lemma MisfitMeans(a: Turn, b: Turn)
    requires Bounded(a) && Bounded(b) && !Fits(a, b)
    ensures Needed(a, b) < |a.eligible * b.eligible| && (a.maxBots > 0 ==> Needed(a, b) < a.maxBots)
    ensures b.minBots > 0 && Needed(a, b) + b.minBots <= |b.eligible| && (a.maxBots > 0 ==> a.minBots <= a.maxBots)
    ensures |a.eligible - b.eligible| + Needed(a, b) >= a.minBots
  {
  }

  lemma PickParts(shared: set<string>, only: set<string>, need: nat, more: nat)
    returns (common: set<string>, rest: set<string>, kept: set<string>, held: set<string>)
    requires need < |shared| && more > 0 && need + more <= |shared| + |only|
    ensures common <= shared && rest <= only && kept <= common && held <= common
    ensures |common| + |rest| == need + more && |kept| == need && |held| == need + 1
  {
    var c := if |shared| <= need + more then |shared| else need + more;
    common := PickSome(shared, c);
    rest := PickSome(only, need + more - c);
    kept := PickSome(common, need);
    held := PickSome(common, need + 1);
  }

  /** Adds to some bots as many others as are missing to a number. */
  lemma PickMore(others: set<string>, bots: set<string>, n: int) returns (more: set<string>)
    requires others !! bots && |others| + |bots| >= n
    ensures more <= others && |bots + more| == Max(|bots|, n)
  {
    more := PickSome(others, Max(0, n - |bots|));
    assert bots !! more;
  }

  lemma MisfitSplit(a: Turn, b: Turn) returns (s: Split)
    requires Bounded(a) && Bounded(b) && !Fits(a, b)
    ensures s.first <= a.eligible * s.bots && |s.first| >= a.minBots
    ensures s.second <= b.eligible * s.bots && |s.second| >= b.minBots && s.first !! s.second
    ensures s.held <= a.eligible * s.bots && |s.held| >= a.minBots && (a.maxBots > 0 ==> |s.held| <= a.maxBots)
    ensures |b.eligible * s.bots - s.held| < b.minBots
  {
    hide Needed, Fits, Bounded;
    MisfitMeans(a, b);
    SharedAndOwn(b.eligible, a.eligible);
    var own := a.eligible - b.eligible;
    var common, rest, kept, held :=
      PickParts(b.eligible * a.eligible, b.eligible - a.eligible, Needed(a, b), b.minBots);
    PartIsApart(a.eligible, b.eligible, common, held);
    var more := PickMore(own, held, a.minBots);
    s := Split(own + common + rest, held + more, own + kept, common - kept + rest);
    hide *;
    SplitBounds(a, b, own, common, rest, kept, held, more);
    SplitSizes(own, common, rest, kept);
    SplitSizes(own, common, rest, held);
  }

  lemma PartIsApart(a: set<string>, b: set<string>, common: set<string>, held: set<string>)
    requires common <= b * a && held <= common
    ensures a - b !! held
  {
  }

  lemma SharedAndOwn(b: set<string>, a: set<string>)
    ensures |b| == |b * a| + |b - a| && b * a == a * b
  {
    assert b == b * a + (b - a);
  }

  lemma SplitSizes(own: set<string>, common: set<string>, rest: set<string>, part: set<string>)
    requires own !! common && common !! rest && part <= common
    ensures |own + part| == |own| + |part| && |common - part + rest| == |common| - |part| + |rest|
  {
    assert own !! part && common - part !! rest;
    assert common * part == part;
  }

  lemma SplitBounds(a: Turn, b: Turn, own: set<string>, common: set<string>, rest: set<string>, kept: set<string>,
                    held: set<string>, more: set<string>)
    requires own == a.eligible - b.eligible && common <= a.eligible * b.eligible && rest <= b.eligible - a.eligible
    requires kept <= common && held <= common && more <= own
    ensures var bots := own + common + rest;
            && own + kept <= a.eligible * bots && common - kept + rest <= b.eligible * bots
            && own + kept !! common - kept + rest && held + more <= a.eligible * bots
            && b.eligible * bots - (held + more) == common - held + rest
            && own !! common && common !! rest
  {
  }

  /** Two rules that do not fit, active alone: there are bots enough for both, held so that the strict pass
      raises all the same. */
  lemma MisfitRaises(turns: seq<Turn>, i: nat, j: nat) returns (p: Pass)
    requires i < j < |turns| && turns[i].active && turns[j].active
    requires forall k :: 0 <= k < |turns| && k != i && k != j ==> !turns[k].active
    requires forall k, l :: 0 <= k < l < |turns| ==> turns[k].name != turns[l].name
    requires Bounded(turns[i]) && Bounded(turns[j]) && !Fits(turns[i], turns[j])
    ensures p.turns == turns && HeldWithinCaps(turns, p.held) && RaisesStrictly(p) && Feasible(p)
    ensures CanTake(turns[i], HeldBy(p.held, turns[i].name))
    ensures forall held :: HeldBy(held, turns[i].name) == HeldBy(p.held, turns[i].name) ==>
              RaisesStrictly(p.(held := held)) && Feasible(p.(held := held))
  {
    hide Fits, Needed, Bounded, RaisesStrictly, Feasible, HeldWithinCaps;
    var s := MisfitSplit(turns[i], turns[j]);
    p := Pass(turns, map[turns[i].name := s.held], s.bots);
    OneHolderWithinCaps(turns, i, s.held);
    forall held | HeldBy(held, turns[i].name) == s.held
      ensures RaisesStrictly(p.(held := held)) && Feasible(p.(held := held))
    {
      SplitRaises(p.(held := held), i, j, s);
    }
  }

  /** Bots a rule can take all of, without being short of any. */
  predicate CanTake(t: Turn, bots: set<string>) {
    bots <= t.eligible && |bots| >= t.minBots && (t.maxBots > 0 ==> |bots| <= t.maxBots)
  }

  lemma OneHolderWithinCaps(turns: seq<Turn>, i: nat, held: set<string>)
    requires i < |turns| && (turns[i].maxBots > 0 ==> |held| <= turns[i].maxBots)
    requires forall k :: 0 <= k < |turns| && turns[k].name == turns[i].name ==> k == i
    ensures HeldWithinCaps(turns, map[turns[i].name := held])
  {
  }

  lemma SplitRaises(p: Pass, i: nat, j: nat, s: Split)
    requires i < j < |p.turns| && p.turns[i].active && p.turns[j].active && p.bots == s.bots
    requires forall k :: 0 <= k < |p.turns| && k != i && k != j ==> !p.turns[k].active
    requires HeldBy(p.held, p.turns[i].name) == s.held && s.held <= p.turns[i].eligible * s.bots
    requires s.first <= p.turns[i].eligible * s.bots && |s.first| >= p.turns[i].minBots
    requires s.second <= p.turns[j].eligible * s.bots && |s.second| >= p.turns[j].minBots && s.first !! s.second
    requires |p.turns[j].eligible * s.bots - s.held| < p.turns[j].minBots
    ensures RaisesStrictly(p) && Feasible(p)
  {
    hide RunPass, Given;
    var choice := seq(|p.turns|, k => if k == i then s.first else if k == j then s.second else {});
    assert Satisfies(p, choice);
    MisfitIsShort(p, i, j, s.held);
    StrictPassRaisesIff(p, map[], true);
  }

  /** A rule active alone takes all the bots there are, if it can. */
  lemma TakesAll(p: Pass, i: nat)
    requires i < |p.turns| && p.turns[i].active && CanTake(p.turns[i], p.bots) && HeldBy(p.held, p.turns[i].name) == {}
    requires forall k :: 0 <= k < |p.turns| && k != i ==> !p.turns[k].active
    requires forall k, l :: 0 <= k < l < |p.turns| ==> p.turns[k].name != p.turns[l].name
    ensures !RaisesStrictly(p) && HeldBy(RunPass(p, map[], true).held, p.turns[i].name) == p.bots
  {
    hide Given, Taken, HeldAfter, TargetsAfter, WarnedAfter;
    NothingTaken(p, i);
    SizeIsExact(p, i);
    GivenBotsAreEligible(p, i);
    assert p.turns[i].eligible * (p.bots - {}) == p.bots;
    SubsetSize(Given(p, i), p.bots);
    StrictPassRaisesIff(p, map[], true);
    RaisesAtFirstShort(p, true, 0);
    HoldingsAgree(p, |p.turns|, i);
  }

  lemma MisfitIsShort(p: Pass, i: nat, j: nat, held: set<string>)
    requires i < j < |p.turns| && p.turns[i].active && p.turns[j].active && HeldBy(p.held, p.turns[i].name) == held
    requires forall k :: 0 <= k < i ==> !p.turns[k].active
    requires held <= p.turns[i].eligible * p.bots && |p.turns[j].eligible * p.bots - held| < p.turns[j].minBots
    ensures Short(p, j)
  {
    hide Given, Usable, Taken;
    FirstKeepsHeld(p, i, held);
    TakenGrows(p, i + 1, j);
    GivenIsUsable(p, j);
    UsableIs(p, j);
    TakenHasGiven(p, i);
    SubsetSize(Given(p, j), p.turns[j].eligible * p.bots - held);
  }

  lemma TakenHasGiven(p: Pass, i: nat)
    requires i < |p.turns|
    ensures Given(p, i) <= Taken(p, i + 1)
  {
    hide Given;
  }

  /** The first active rule keeps all it holds that it may. */
  lemma FirstKeepsHeld(p: Pass, i: nat, held: set<string>)
    requires i < |p.turns| && p.turns[i].active && HeldBy(p.held, p.turns[i].name) == held
    requires forall k :: 0 <= k < i ==> !p.turns[k].active
    requires held <= p.turns[i].eligible * p.bots
    ensures held <= Given(p, i)
  {
    hide Choose, Taken;
    NothingTaken(p, i);
    UsableIs(p, i);
    ChoiceIsDetermined(held, Usable(p, i), p.turns[i].maxBots);
    assert held * Usable(p, i) == held;
  }

  /** Activity does not bear on whether rules fit. */
  lemma ActivityIsNoMatter(a: Turn, b: Turn)
    ensures forall x, y :: Fits(a.(active := x), b.(active := y)) <==> Fits(a, b)
    ensures forall x :: Bounded(a.(active := x)) <==> Bounded(a)
    ensures forall y :: Bounded(b.(active := y)) <==> Bounded(b)
  {
  }
}
