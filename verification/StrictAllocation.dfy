/**
 Errors of the strict allocation mode of server/core/virtual_bots.py, from the configuration: for which guided
 tables an error means that no assignment exists, and a validated configuration where it does not.
 */
module StrictAllocation {
  import opened Wrappers
  import opened Ordering
  import opened ActivityWindows
  import opened GuidedTables
  import opened GuidedPass
  import opened GuidedTheorems
  import opened GuidedFeasibility
  import opened VirtualBots

  /** A rule as another one meets it: activity aside. */
  function Demand(c: RuleConfig, groups: Groups): Turn {
    Turn(c.name, true, EligibleBots(c, groups), c.minBots, c.maxBots)
  }

  /** Does every rule fit every rule processed after it? */
  predicate RulesFit(tables: map<string, RuleConfig>, groups: Groups) {
    var order := GuidedOrder(tables);
    forall i, j :: 0 <= i < j < |order| ==> Fits(Demand(order[i], groups), Demand(order[j], groups))
  }

  /** What a strict pass over these tables looks at. */
  function PassOver(tables: map<string, RuleConfig>, groups: Groups, counter: nat,
                    held: map<string, set<string>>, bots: set<string>): Pass
  {
    Pass(TurnsOf(GuidedOrder(tables), groups, counter), held, bots)
  }

  /** The same rules, with other schedules. */
  ghost predicate Rescheduled(tables: map<string, RuleConfig>, tables': map<string, RuleConfig>) {
    tables'.Keys == tables.Keys && forall n :: n in tables ==> tables'[n] == tables[n].(schedule := tables'[n].schedule)
  }

  lemma ConfigIsBounded(tables: map<string, RuleConfig>, groups: Groups, i: nat)
    requires ValidTables(tables, groups, true) && i < |GuidedOrder(tables)|
    ensures Bounded(Demand(GuidedOrder(tables)[i], groups))
  {
    hide EligibleBots, ValidateSchedule, KnownGroups;
    var name := RuleNames(tables)[i];
    assert name in tables && ValidateRule(tables[name], groups, true).Ok?;
  }

  lemma TurnIsDemand(tables: map<string, RuleConfig>, groups: Groups, counter: nat, i: nat)
    requires i < |GuidedOrder(tables)|
    ensures var order := GuidedOrder(tables);
            var turns := TurnsOf(order, groups, counter);
            turns[i] == Demand(order[i], groups).(active := IsActive(order[i].schedule, counter))
  {
    hide EligibleBots, IsActive, GuidedOrder, TurnsOf;
    TurnAt(GuidedOrder(tables), groups, counter, i);
  }

  /** Where the rules fit each other, a strict pass raises if and only if no assignment satisfies the rules that
      are active: at any tick, with any bots, held within the caps in any way. */
  lemma FittingErrorsAreGenuine(tables: map<string, RuleConfig>, groups: Groups, counter: nat,
                                held: map<string, set<string>>, bots: set<string>)
    requires ValidTables(tables, groups, true) && RulesFit(tables, groups)
    requires HeldWithinCaps(PassOver(tables, groups, counter, held, bots).turns, held)
    ensures var p := PassOver(tables, groups, counter, held, bots); RaisesStrictly(p) <==> !Feasible(p)
  {
    hide GuidedOrder, TurnsOf, ValidTables, EligibleBots, IsActive, Fits, Bounded, HeldWithinCaps, RaisesStrictly,
      Feasible;
    var order := GuidedOrder(tables);
    var turns := TurnsOf(order, groups, counter);
    forall i | 0 <= i < |turns| ensures Bounded(turns[i]) {
      ConfigIsBounded(tables, groups, i);
      TurnIsDemand(tables, groups, counter, i);
      ActivityIsNoMatter(Demand(order[i], groups), Demand(order[i], groups));
    }
    forall i, j | 0 <= i < j < |turns| ensures Fits(turns[i], turns[j]) {
      TurnIsDemand(tables, groups, counter, i);
      TurnIsDemand(tables, groups, counter, j);
      ActivityIsNoMatter(Demand(order[i], groups), Demand(order[j], groups));
    }
    ErrorMeansInfeasible(Pass(turns, held, bots));
  }

  /** Schedules do not bear on the order of the rules. */
  lemma SameOrder(tables: map<string, RuleConfig>, tables': map<string, RuleConfig>, i: nat, j: nat)
    returns (i': nat, j': nat)
    requires Rescheduled(tables, tables') && forall n :: n in tables ==> tables[n].name == n
    requires i < j < |GuidedOrder(tables)|
    ensures i' < j' < |GuidedOrder(tables')|
    ensures var a, b := GuidedOrder(tables)[i], GuidedOrder(tables)[j];
            && a.name in tables' && b.name in tables'
            && GuidedOrder(tables')[i'] == tables'[a.name] && GuidedOrder(tables')[j'] == tables'[b.name]
  {
    hide NameLe, RuleLe, Sorted;
    var m, n := RuleNames(tables)[i], RuleNames(tables)[j];
    assert m in tables && n in tables;
    i' := GuidedOrderIsComplete(tables', m);
    j' := GuidedOrderIsComplete(tables', n);
    GuidedOrderIsSorted(tables, i, j);
    if j' < i' {
      GuidedOrderIsSorted(tables', j', i');
      if NameLe(m, n) && NameLe(n, m) {
        NameLeAntisymmetric(m, n);
      }
    }
  }

  lemma FitIsKept(tables: map<string, RuleConfig>, tables': map<string, RuleConfig>, groups: Groups)
    requires Rescheduled(tables, tables') && forall n :: n in tables ==> tables[n].name == n
    requires RulesFit(tables, groups)
    ensures RulesFit(tables', groups)
  {
    hide GuidedOrder, Fits, EligibleBots;
    Reversed(tables, tables');
    var order, order' := GuidedOrder(tables), GuidedOrder(tables');
    forall i, j | 0 <= i < j < |order'| ensures Fits(Demand(order'[i], groups), Demand(order'[j], groups)) {
      var k, l := SameOrder(tables', tables, i, j);
      PlaceIsNamed(tables', i);
      PlaceIsNamed(tables', j);
      DemandIgnoresSchedule(order[k], order'[i], groups);
      DemandIgnoresSchedule(order[l], order'[j], groups);
    }
  }

  lemma Reversed(tables: map<string, RuleConfig>, tables': map<string, RuleConfig>)
    requires Rescheduled(tables, tables') && forall n :: n in tables ==> tables[n].name == n
    ensures Rescheduled(tables', tables) && forall n :: n in tables' ==> tables'[n].name == n
  {
  }

  lemma PlaceIsNamed(tables: map<string, RuleConfig>, i: nat)
    requires i < |GuidedOrder(tables)| && forall n :: n in tables ==> tables[n].name == n
    ensures var c := GuidedOrder(tables)[i]; c.name in tables && tables[c.name] == c
  {
    hide RuleNames;
    assert RuleNames(tables)[i] in tables;
  }

  lemma DemandIgnoresSchedule(c: RuleConfig, c': RuleConfig, groups: Groups)
    requires c' == c.(schedule := c'.schedule)
    ensures Demand(c', groups) == Demand(c, groups)
  {
  }

  // ------------------------------------------------ ticks of a new server

  /** The ticks of a new server, counted from one, with these bots instantiated at each. */
  function TicksOf(tables: map<string, RuleConfig>, groups: Groups, bots: seq<set<string>>): (ticks: seq<Tick>)
    ensures |ticks| == |bots|
    ensures forall k :: 0 <= k < |bots| ==> ticks[k] == Tick(TurnsOf(GuidedOrder(tables), groups, k + 1), bots[k])
  {
    seq(|bots|, k requires 0 <= k < |bots| => Tick(TurnsOf(GuidedOrder(tables), groups, k + 1), bots[k]))
  }

  /** Who holds what after them, from empty assignments. */
  function HeldThen(tables: map<string, RuleConfig>, groups: Groups, bots: seq<set<string>>): map<string, set<string>> {
    HeldAfterTicks(map n | n in tables.Keys :: {}, TicksOf(tables, groups, bots), true)
  }

  /** The pass of the next tick. */
  function PassThen(tables: map<string, RuleConfig>, groups: Groups, bots: seq<set<string>>, next: set<string>): Pass {
    PassOver(tables, groups, |bots| + 1, HeldThen(tables, groups, bots), next)
  }

  /** No tick so far has raised. */
  ghost predicate Calm(tables: map<string, RuleConfig>, groups: Groups, bots: seq<set<string>>) {
    forall n :: 0 <= n < |bots| ==> !RaisesStrictly(PassThen(tables, groups, bots[..n], bots[n]))
  }

  lemma ThenWithinCaps(tables: map<string, RuleConfig>, groups: Groups, bots: seq<set<string>>, next: set<string>)
    requires forall n :: n in tables ==> tables[n].name == n
    ensures HeldWithinCaps(PassThen(tables, groups, bots, next).turns, HeldThen(tables, groups, bots))
  {
    hide GuidedOrder, TurnsOf, EligibleBots, IsActive, HeldAfterTicks, TicksOf;
    var caps := map n | n in tables :: tables[n].maxBots;
    forall k: nat, i: nat | i < |GuidedOrder(tables)|
      ensures var turn := TurnsOf(GuidedOrder(tables), groups, k)[i];
              turn.name in caps && caps[turn.name] == turn.maxBots
    {
      TurnIsDemand(tables, groups, k, i);
      PlaceIsNamed(tables, i);
    }
    CapsHoldAcrossTicks(tables.Keys, TicksOf(tables, groups, bots), true, caps);
  }

  const ALWAYS := Schedule(0, None)
  const EVERY_SECOND := Schedule(2, Some(Window(0, 1)))
  const NEVER := Schedule(1, Some(Window(0, 0)))

  /** The rules with only two of them ever active: the first at every tick, the second at every other. */
  function OnlyTwo(tables: map<string, RuleConfig>, a: string, b: string): map<string, RuleConfig> {
    map n | n in tables ::
      tables[n].(schedule := if n == a then ALWAYS else if n == b then EVERY_SECOND else NEVER)
  }

  lemma OnlyTwoIsValid(tables: map<string, RuleConfig>, groups: Groups, a: string, b: string)
    requires ValidTables(tables, groups, true)
    ensures Rescheduled(tables, OnlyTwo(tables, a, b)) && ValidTables(OnlyTwo(tables, a, b), groups, true)
  {
    hide EligibleBots;
    var tables' := OnlyTwo(tables, a, b);
    forall n | n in tables' ensures tables'[n].name == n && ValidateRule(tables'[n], groups, true).Ok? {
      assert ValidateRule(tables[n], groups, true).Ok?;
      assert EligibleBots(tables'[n], groups) == EligibleBots(tables[n], groups) by {
        SameTags(tables[n], tables'[n], groups);
      }
    }
  }

  lemma SameTags(c: RuleConfig, c': RuleConfig, groups: Groups)
    requires c'.botGroups == c.botGroups
    ensures EligibleBots(c', groups) == EligibleBots(c, groups)
  {
  }

  lemma AlwaysAndNever()
    ensures forall n: nat :: IsActive(ALWAYS, n) && !IsActive(NEVER, n)
    ensures !IsActive(EVERY_SECOND, 1) && IsActive(EVERY_SECOND, 2)
  {
  }

  /** Two rules that do not fit, whatever the others: with suitable schedules and bots the first tick goes well,
      and the second raises although an assignment exists. */
  lemma MisfitErrs(tables: map<string, RuleConfig>, groups: Groups, i: nat, j: nat)
    returns (tables': map<string, RuleConfig>, first: set<string>, next: set<string>)
    requires ValidTables(tables, groups, true) && i < j < |GuidedOrder(tables)|
    requires !Fits(Demand(GuidedOrder(tables)[i], groups), Demand(GuidedOrder(tables)[j], groups))
    ensures Rescheduled(tables, tables') && ValidTables(tables', groups, true) && Calm(tables', groups, [first])
    ensures var p := PassThen(tables', groups, [first], next); RaisesStrictly(p) && Feasible(p)
  {
    hide GuidedOrder, TurnsOf, EligibleBots, Fits, Bounded, HeldWithinCaps, RaisesStrictly, Feasible, OnlyTwo,
      ValidateRule, Demand, Calm, PassThen, OneActive, TwoActive;
    var order := GuidedOrder(tables);
    var a, b := order[i].name, order[j].name;
    PlaceIsNamed(tables, i);
    PlaceIsNamed(tables, j);
    tables' := OnlyTwo(tables, a, b);
    OnlyTwoIsValid(tables, groups, a, b);
    var k, l := SameOrder(tables, tables', i, j);
    OnlyTwoInOrder(tables, a, b, GuidedOrder(tables'), k, l);
    TwoActiveTurns(GuidedOrder(tables'), groups, k, l);
    DemandIgnoresSchedule(order[i], GuidedOrder(tables')[k], groups);
    DemandIgnoresSchedule(order[j], GuidedOrder(tables')[l], groups);
    ConfigIsBounded(tables, groups, i);
    ConfigIsBounded(tables, groups, j);
    first, next := TwoTicks(tables', groups, k, l);
  }

  /** A first tick at which one rule takes all the bots, and a second at which it keeps too many of them. */
  lemma TwoTicks(tables: map<string, RuleConfig>, groups: Groups, k: nat, l: nat)
    returns (first: set<string>, next: set<string>)
    requires var turns := TurnsOf(GuidedOrder(tables), groups, 1);
             OneActive(turns, k) && turns[k] == TurnsOf(GuidedOrder(tables), groups, 2)[k]
    requires TwoActive(TurnsOf(GuidedOrder(tables), groups, 2), k, l)
    requires var turns := TurnsOf(GuidedOrder(tables), groups, 2);
             Bounded(turns[k]) && Bounded(turns[l]) && !Fits(turns[k], turns[l])
    ensures Calm(tables, groups, [first])
    ensures var p := PassThen(tables, groups, [first], next); RaisesStrictly(p) && Feasible(p)
  {
    hide GuidedOrder, TurnsOf, Fits, Bounded, HeldWithinCaps, RaisesStrictly, Feasible, CanTake, HeldThen, HeldBy, Calm;
    var turns := TurnsOf(GuidedOrder(tables), groups, 2);
    var p := MisfitRaises(turns, k, l);
    first, next := HeldBy(p.held, turns[k].name), p.bots;
    TakenFirst(tables, groups, k, turns[k], first);
    assert PassThen(tables, groups, [first], next) == p.(held := HeldThen(tables, groups, [first]));
  }

  predicate TwoActive(turns: seq<Turn>, k: nat, l: nat) {
    && k < l < |turns| && turns[k].active && turns[l].active
    && (forall m :: 0 <= m < |turns| && m != k && m != l ==> !turns[m].active)
    && (forall m, n :: 0 <= m < n < |turns| ==> turns[m].name != turns[n].name)
  }

  predicate OneActive(turns: seq<Turn>, k: nat) {
    && k < |turns| && turns[k].active
    && (forall m :: 0 <= m < |turns| && m != k ==> !turns[m].active)
    && (forall m, n :: 0 <= m < n < |turns| ==> turns[m].name != turns[n].name)
  }

  lemma TakenFirst(tables: map<string, RuleConfig>, groups: Groups, k: nat, turn: Turn, first: set<string>)
    requires OneActive(TurnsOf(GuidedOrder(tables), groups, 1), k)
    requires k < |GuidedOrder(tables)| && turn == TurnsOf(GuidedOrder(tables), groups, 1)[k] && CanTake(turn, first)
    ensures Calm(tables, groups, [first])
    ensures HeldBy(HeldThen(tables, groups, [first]), turn.name) == first
  {
    hide GuidedOrder, TurnsOf, RunPass, RaisesStrictly, CanTake, HeldThen, Calm, OneActive;
    OneActiveTakes(FirstPass(tables, groups, first), k);
    FirstHeld(tables, groups, first);
    FirstIsCalm(tables, groups, first);
  }

  lemma OneActiveTakes(p: Pass, k: nat)
    requires k < |p.turns| && OneActive(p.turns, k) && CanTake(p.turns[k], p.bots)
             && HeldBy(p.held, p.turns[k].name) == {}
    ensures !RaisesStrictly(p) && HeldBy(RunPass(p, map[], true).held, p.turns[k].name) == p.bots
  {
    hide RunPass, RaisesStrictly, CanTake;
    TakesAll(p, k);
  }

  function FirstPass(tables: map<string, RuleConfig>, groups: Groups, bots: set<string>): Pass {
    Pass(TurnsOf(GuidedOrder(tables), groups, 1), map n | n in tables.Keys :: {}, bots)
  }

  lemma FirstHeld(tables: map<string, RuleConfig>, groups: Groups, first: set<string>)
    ensures HeldThen(tables, groups, [first]) == RunPass(FirstPass(tables, groups, first), map[], true).held
  {
    hide GuidedOrder, TurnsOf, RunPass, HeldAfterTicks;
    var tick := Tick(TurnsOf(GuidedOrder(tables), groups, 1), first);
    assert TicksOf(tables, groups, [first]) == [tick];
    OneTickHeld(map n | n in tables.Keys :: {}, tick);
  }

  lemma OneTickHeld(held: map<string, set<string>>, tick: Tick)
    ensures HeldAfterTicks(held, [tick], true) == RunPass(Pass(tick.turns, held, tick.bots), map[], true).held
  {
    hide RunPass;
    assert [tick][..0] == [] && HeldAfterTicks(held, [], true) == held;
  }

  lemma FirstIsCalm(tables: map<string, RuleConfig>, groups: Groups, first: set<string>)
    requires !RaisesStrictly(FirstPass(tables, groups, first))
    ensures Calm(tables, groups, [first])
  {
    hide PassThen, FirstPass, RaisesStrictly;
    assert [first][..0] == [];
    NothingHeldYet(tables, groups, first);
  }

  /** At the first tick only the first of the two is active, at the second both. */
  lemma TwoActiveTurns(order: seq<RuleConfig>, groups: Groups, k: nat, l: nat)
    requires k < l < |order| && forall m, n :: 0 <= m < n < |order| ==> order[m].name != order[n].name
    requires forall m :: 0 <= m < |order| ==>
               order[m].schedule == if m == k then ALWAYS else if m == l then EVERY_SECOND else NEVER
    ensures var turns := TurnsOf(order, groups, 1);
            OneActive(turns, k) && turns[k] == Demand(order[k], groups)
    ensures var turns := TurnsOf(order, groups, 2);
            TwoActive(turns, k, l) && turns[k] == Demand(order[k], groups) && turns[l] == Demand(order[l], groups)
  {
    hide TurnsOf, EligibleBots, IsActive;
    AlwaysAndNever();
    forall m | 0 <= m < |order|
      ensures TurnsOf(order, groups, 1)[m] == Demand(order[m], groups).(active := m == k)
      ensures TurnsOf(order, groups, 2)[m] == Demand(order[m], groups).(active := m == k || m == l)
    {
      TurnAt(order, groups, 1, m);
      TurnAt(order, groups, 2, m);
    }
  }

  lemma OnlyTwoSchedules(tables: map<string, RuleConfig>, a: string, b: string)
    requires forall n :: n in tables ==> tables[n].name == n
    ensures forall n :: n in OnlyTwo(tables, a, b) ==>
              && OnlyTwo(tables, a, b)[n].name == n
              && OnlyTwo(tables, a, b)[n].schedule == if n == a then ALWAYS else if n == b then EVERY_SECOND else NEVER
  {
  }

  lemma OnlyTwoInOrder(tables: map<string, RuleConfig>, a: string, b: string, order: seq<RuleConfig>, k: nat, l: nat)
    requires forall n :: n in tables ==> tables[n].name == n
    requires order == GuidedOrder(OnlyTwo(tables, a, b)) && k < l < |order| && order[k].name == a && order[l].name == b
    ensures forall m, n :: 0 <= m < n < |order| ==> order[m].name != order[n].name
    ensures forall m :: 0 <= m < |order| ==>
              order[m].schedule == if m == k then ALWAYS else if m == l then EVERY_SECOND else NEVER
  {
    hide GuidedOrder, OnlyTwo, RuleLe, NameLe;
    OnlyTwoSchedules(tables, a, b);
    forall m, n | 0 <= m < n < |order| ensures order[m].name != order[n].name {
      GuidedOrderIsSorted(OnlyTwo(tables, a, b), m, n);
    }
    forall m | 0 <= m < |order|
      ensures order[m].schedule == if m == k then ALWAYS else if m == l then EVERY_SECOND else NEVER
    {
      PlaceIsNamed(OnlyTwo(tables, a, b), m);
    }
  }

  /** Under these rules, whatever their schedules and whatever bots come and go from the first tick on, a strict
      error always means that the active rules cannot all be met. */
  ghost predicate StrictErrorsAreGenuine(tables: map<string, RuleConfig>, groups: Groups) {
    forall tables': map<string, RuleConfig>, bots: seq<set<string>>, next: set<string> ::
      Rescheduled(tables, tables') && ValidTables(tables', groups, true) && Calm(tables', groups, bots) ==>
        var p := PassThen(tables', groups, bots, next);
        RaisesStrictly(p) <==> !Feasible(p)
  }

  /** That is so if and only if every rule fits every later one: a condition on groups, minimums and caps alone. */
  lemma StrictErrorsAreGenuineIff(tables: map<string, RuleConfig>, groups: Groups)
    requires ValidTables(tables, groups, true)
    ensures StrictErrorsAreGenuine(tables, groups) <==> RulesFit(tables, groups)
  {
    hide RulesFit, ValidTables, Calm, PassThen, Rescheduled, RaisesStrictly, Feasible;
    if RulesFit(tables, groups) {
      forall tables': map<string, RuleConfig>, bots: seq<set<string>>, next: set<string>
        | Rescheduled(tables, tables') && ValidTables(tables', groups, true) && Calm(tables', groups, bots)
        ensures var p := PassThen(tables', groups, bots, next); RaisesStrictly(p) <==> !Feasible(p)
      {
        FitMeansGenuine(tables, tables', groups, bots, next);
      }
    } else {
      var tables', first, next := MisfitMeansNot(tables, groups);
    }
  }

  lemma FitMeansGenuine(tables: map<string, RuleConfig>, tables': map<string, RuleConfig>, groups: Groups,
                        bots: seq<set<string>>, next: set<string>)
    requires ValidTables(tables, groups, true) && ValidTables(tables', groups, true)
    requires Rescheduled(tables, tables') && RulesFit(tables, groups)
    ensures var p := PassThen(tables', groups, bots, next); RaisesStrictly(p) <==> !Feasible(p)
  {
    hide RulesFit, ValidateRule, HeldWithinCaps, HeldThen, PassOver, RaisesStrictly, Feasible;
    FitIsKept(tables, tables', groups);
    ThenWithinCaps(tables', groups, bots, next);
    FittingErrorsAreGenuine(tables', groups, |bots| + 1, HeldThen(tables', groups, bots), next);
  }

  lemma MisfitMeansNot(tables: map<string, RuleConfig>, groups: Groups)
    returns (tables': map<string, RuleConfig>, first: set<string>, next: set<string>)
    requires ValidTables(tables, groups, true) && !RulesFit(tables, groups)
    ensures Rescheduled(tables, tables') && ValidTables(tables', groups, true) && Calm(tables', groups, [first])
    ensures var p := PassThen(tables', groups, [first], next); RaisesStrictly(p) && Feasible(p)
  {
    hide GuidedOrder, ValidTables, Demand, Fits, Rescheduled, Calm, PassThen, RaisesStrictly, Feasible;
    var i, j :| 0 <= i < j < |GuidedOrder(tables)|
                && !Fits(Demand(GuidedOrder(tables)[i], groups), Demand(GuidedOrder(tables)[j], groups));
    tables', first, next := MisfitErrs(tables, groups, i, j);
  }

  const WITNESS_GROUPS: Groups := map["all" := ["x", "y"], "few" := ["x"]]
  const WITNESS: map<string, RuleConfig> := map[
    "a" := RuleConfig("a", 1, 1, ["all"], 0, ALWAYS),
    "b" := RuleConfig("b", 1, 1, ["few"], 1, ALWAYS)]

  lemma WitnessTags()
    ensures EligibleBots(WITNESS["a"], WITNESS_GROUPS) == {"x", "y"}
    ensures EligibleBots(WITNESS["b"], WITNESS_GROUPS) == {"x"}
  {
    OneGroup(WITNESS["a"], WITNESS_GROUPS, "all");
    OneGroup(WITNESS["b"], WITNESS_GROUPS, "few");
    assert forall b :: b in WITNESS_GROUPS["all"] <==> b == "x" || b == "y";
    assert forall b :: b in WITNESS_GROUPS["few"] <==> b == "x";
  }

  lemma OneGroup(c: RuleConfig, groups: Groups, g: string)
    requires c.botGroups == [g] && g in groups
    ensures forall b :: b in EligibleBots(c, groups) <==> b in groups[g]
  {
    assert g in c.botGroups;
  }

  lemma WitnessIsValid()
    ensures ValidTables(WITNESS, WITNESS_GROUPS, true)
  {
    hide EligibleBots;
    WitnessTags();
    forall n | n in WITNESS ensures WITNESS[n].name == n && ValidateRule(WITNESS[n], WITNESS_GROUPS, true).Ok? {
      assert KnownGroups(WITNESS[n], WITNESS_GROUPS);
    }
  }

  lemma WitnessTurns()
    ensures TurnsOf(GuidedOrder(WITNESS), WITNESS_GROUPS, 1)
            == [Turn("a", true, {"x", "y"}, 1, 1), Turn("b", true, {"x"}, 1, 1)]
  {
    hide GuidedOrder, RuleNames, EligibleBots, TurnsOf;
    WitnessTags();
    var order := GuidedOrder(WITNESS);
    var i := GuidedOrderIsComplete(WITNESS, "a");
    var j := GuidedOrderIsComplete(WITNESS, "b");
    OrderLength(WITNESS);
    assert WITNESS.Keys == {"a", "b"};
    if j < i {
      GuidedOrderIsSorted(WITNESS, j, i);
    }
    assert i == 0 && j == 1;
    TurnIsDemand(WITNESS, WITNESS_GROUPS, 1, 0);
    TurnIsDemand(WITNESS, WITNESS_GROUPS, 1, 1);
    assert TurnsOf(order, WITNESS_GROUPS, 1) == [Turn("a", true, {"x", "y"}, 1, 1), Turn("b", true, {"x"}, 1, 1)];
  }

  lemma OrderLength(tables: map<string, RuleConfig>)
    ensures |GuidedOrder(tables)| == |tables.Keys|
  {
  }

  /** A validated configuration whose strict pass raises at the first tick although an assignment exists: the
      first rule takes the one bot that the second could use. */
  lemma StrictCanFailThoughFeasible()
    ensures ValidTables(WITNESS, WITNESS_GROUPS, true)
    ensures var p := PassThen(WITNESS, WITNESS_GROUPS, [], {"x", "y"}); RaisesStrictly(p) && Feasible(p)
  {
    hide RaisesStrictly, Feasible, PassThen, ValidTables, TurnsOf, GuidedOrder;
    WitnessIsValid();
    WitnessTurns();
    NothingHeldYet(WITNESS, WITNESS_GROUPS, {"x", "y"});
    GreedyRaises(PassThen(WITNESS, WITNESS_GROUPS, [], {"x", "y"}));
  }

  lemma GreedyRaises(p: Pass)
    requires p.turns == [Turn("a", true, {"x", "y"}, 1, 1), Turn("b", true, {"x"}, 1, 1)]
    requires HeldBy(p.held, "a") == {} && p.bots == {"x", "y"}
    ensures RaisesStrictly(p) && Feasible(p)
  {
    hide Given, RunPass;
    GreedyTakesX(p);
    assert Satisfies(p, [{"y"}, {"x"}]);
    assert Short(p, 1);
    StrictPassRaisesIff(p, map[], true);
  }

  lemma NothingHeldYet(tables: map<string, RuleConfig>, groups: Groups, bots: set<string>)
    ensures PassThen(tables, groups, [], bots) == FirstPass(tables, groups, bots)
  {
    hide GuidedOrder, TurnsOf;
    assert TicksOf(tables, groups, []) == [];
  }

  lemma GreedyTakesX(p: Pass)
    requires |p.turns| == 2 && p.turns[0] == Turn("a", true, {"x", "y"}, 1, 1)
    requires HeldBy(p.held, "a") == {} && p.bots == {"x", "y"}
    requires p.turns[1].eligible == {"x"}
    ensures Given(p, 0) == {"x"} && Given(p, 1) == {}
  {
    hide Choose;
    var r := Given(p, 0);
    assert Usable(p, 0) == {"x", "y"};
    ChoiceIsDetermined({}, {"x", "y"}, 1);
    assert {} * {"x", "y"} == {};
    assert !NameLe("y", "x");
    assert r == {} || r == {"x"} || r == {"y"} || r == {"x", "y"};
    assert |{"x", "y"}| == 2;
    assert r == {"y"} ==> "y" in r - {} && "x" in {"x", "y"} - r;
    assert Usable(p, 1) == {} by {
      assert Taken(p, 1) == Taken(p, 0) + r;
    }
    GivenIsUsable(p, 1);
  }
}
