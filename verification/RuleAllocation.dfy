/**
 What an allocation pass of server/core/virtual_bots.py gives a rule, in terms of its configuration: the groups it
 lists, the bots tagged into them, its minimum and its cap.
 */
module RuleAllocation {
  import opened Wrappers
  import opened Arithmetic
  import opened Ordering
  import opened ActivityWindows
  import opened GuidedTables
  import opened GuidedPass
  import opened GuidedTheorems
  import opened VirtualBots

  /** A bot is tagged into one of the groups a rule lists. */
  predicate Tagged(c: RuleConfig, groups: Groups, bot: string) {
    exists g :: g in c.botGroups && g in groups && bot in groups[g]
  }

  /** The pass over these tables at a tick. */
  function PassAt(tables: map<string, RuleConfig>, groups: Groups, counter: nat,
                  held: map<string, set<string>>, bots: set<string>): Pass
  {
    Pass(TurnsOf(GuidedOrder(tables), groups, counter), held, bots)
  }

  /** The instantiated bots tagged for a rule that no rule before it was given. */
  function Left(tables: map<string, RuleConfig>, groups: Groups, p: Pass, i: nat): set<string>
    requires i < |GuidedOrder(tables)| && i < |p.turns|
  {
    set b | b in p.bots && Tagged(GuidedOrder(tables)[i], groups, b) && IsFree(p, i, b)
  }

  predicate IsFree(p: Pass, i: nat, bot: string)
    requires i <= |p.turns|
  {
    forall j :: 0 <= j < i ==> bot !in Given(p, j)
  }

  /** Every listed group counts, and no other. */
  lemma TaggedIff(c: RuleConfig, groups: Groups, bot: string)
    ensures bot in EligibleBots(c, groups) <==> Tagged(c, groups, bot)
  {
  }

  lemma UsableIsLeft(tables: map<string, RuleConfig>, groups: Groups, counter: nat, p: Pass, i: nat)
    requires i < |GuidedOrder(tables)| && p.turns == TurnsOf(GuidedOrder(tables), groups, counter)
    ensures p.turns[i] == TurnOf(GuidedOrder(tables)[i], groups, counter)
    ensures p.turns[i].eligible * (p.bots - Taken(p, i)) == Usable(p, i) == Left(tables, groups, p, i)
  {
    hide GuidedOrder, TurnsOf, Given, Taken, EligibleBots, IsActive, Tagged, IsFree;
    var c := GuidedOrder(tables)[i];
    TurnAt(GuidedOrder(tables), groups, counter, i);
    forall b ensures b in Usable(p, i) <==> b in Left(tables, groups, p, i) {
      TaggedIff(c, groups, b);
      TakenIff(p, i, b);
    }
  }

  lemma {:induction false} TakenIff(p: Pass, n: nat, bot: string)
    requires n <= |p.turns|
    ensures bot in Taken(p, n) <==> !IsFree(p, n, bot)
  {
    hide Given;
    if n == 0 {
    } else {
      TakenIff(p, n - 1, bot);
      assert IsFree(p, n, bot) <==> IsFree(p, n - 1, bot) && bot !in Given(p, n - 1);
    }
  }

  /** An active rule that came within its cap is given exactly as many bots as its cap and the bots left for it
      allow, all of them tagged into its groups and left for it; an inactive one is given none. */
  lemma RuleSizeIsExact(tables: map<string, RuleConfig>, groups: Groups, counter: nat,
                        held: map<string, set<string>>, bots: set<string>, i: nat)
    requires i < |GuidedOrder(tables)|
    requires var c := GuidedOrder(tables)[i]; c.maxBots > 0 ==> |HeldBy(held, c.name)| <= c.maxBots
    ensures var c := GuidedOrder(tables)[i];
            var p := PassAt(tables, groups, counter, held, bots);
            var left := Left(tables, groups, p, i);
            && i < |p.turns| && Given(p, i) <= left
            && (IsActive(c.schedule, counter) ==>
                  |Given(p, i)| == if c.maxBots > 0 then Min(c.maxBots, |left|) else |left|)
            && (!IsActive(c.schedule, counter) ==> Given(p, i) == {})
  {
    hide GuidedOrder, TurnsOf, Given, Taken, EligibleBots, IsActive, Left;
    var p := PassAt(tables, groups, counter, held, bots);
    UsableIsLeft(tables, groups, counter, p, i);
    GivenIsUsable(p, i);
    GivenBotsAreEligible(p, i);
    if p.turns[i].active {
      SizeIsExact(p, i);
    }
  }

  /** A bot left for an active rule by any of its groups is given to it, unless the rule has met its cap. */
  lemma AnyGroupServes(tables: map<string, RuleConfig>, groups: Groups, counter: nat,
                       held: map<string, set<string>>, bots: set<string>, i: nat, g: string, bot: string)
    requires i < |GuidedOrder(tables)| && IsActive(GuidedOrder(tables)[i].schedule, counter)
    requires g in GuidedOrder(tables)[i].botGroups && g in groups && bot in groups[g] && bot in bots
    requires var p := PassAt(tables, groups, counter, held, bots); i < |p.turns| && IsFree(p, i, bot)
    ensures var c := GuidedOrder(tables)[i];
            var p := PassAt(tables, groups, counter, held, bots);
            bot in Given(p, i) || (c.maxBots > 0 && |Given(p, i)| >= c.maxBots)
  {
    hide GuidedOrder, TurnsOf, Taken, EligibleBots, IsActive, Usable, Given, IsFree;
    var p := PassAt(tables, groups, counter, held, bots);
    UsableIsLeft(tables, groups, counter, p, i);
    assert bot in Left(tables, groups, p, i);
    UsableIsGiven(p, i, bot);
  }

  lemma UsableIsGiven(p: Pass, i: nat, bot: string)
    requires i < |p.turns| && p.turns[i].active && bot in Usable(p, i)
    ensures bot in Given(p, i) || (p.turns[i].maxBots > 0 && |Given(p, i)| >= p.turns[i].maxBots)
  {
    hide Choose, Taken, Usable;
    ChoiceIsDetermined(HeldBy(p.held, p.turns[i].name), Usable(p, i), p.turns[i].maxBots);
    if bot !in Given(p, i) {
      SubsetSize(Given(p, i), Usable(p, i));
    }
  }

  /** In a validated configuration no rule after one left below its minimum is given a bot that is tagged into any
      of that rule's groups. */
  lemma NoGroupStarves(tables: map<string, RuleConfig>, groups: Groups, strict: bool, counter: nat,
                       held: map<string, set<string>>, bots: set<string>, i: nat, j: nat, bot: string)
    requires ValidTables(tables, groups, strict) && i < j < |GuidedOrder(tables)|
    requires var c := GuidedOrder(tables)[i];
             var p := PassAt(tables, groups, counter, held, bots);
             i < |p.turns| && IsActive(c.schedule, counter) && |Given(p, i)| < c.minBots
    requires Tagged(GuidedOrder(tables)[i], groups, bot)
    ensures var p := PassAt(tables, groups, counter, held, bots); j < |p.turns| && bot !in Given(p, j)
  {
    hide GuidedOrder, TurnsOf, Given, Taken, EligibleBots, IsActive, Left, ValidTables;
    var p := PassAt(tables, groups, counter, held, bots);
    UsableIsLeft(tables, groups, counter, p, i);
    TaggedIff(GuidedOrder(tables)[i], groups, bot);
    CapsAreSound(tables, groups, strict, i);
    NoStarvation(p, i, j);
  }

  lemma CapsAreSound(tables: map<string, RuleConfig>, groups: Groups, strict: bool, i: nat)
    requires ValidTables(tables, groups, strict) && i < |GuidedOrder(tables)|
    ensures var c := GuidedOrder(tables)[i]; c.maxBots > 0 ==> c.minBots <= c.maxBots
  {
    hide EligibleBots, ValidateSchedule, KnownGroups;
    var name := RuleNames(tables)[i];
    assert name in tables && ValidateRule(tables[name], groups, strict).Ok?;
  }
}
