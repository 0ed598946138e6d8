/**
 Guided-table rules of server/core/virtual_bots.py: their configuration, its validation, and the
 order in which an allocation pass visits them.
 */
module GuidedTables {
  import opened Wrappers
  import opened Ordering
  import opened ActivityWindows

  // -------------------------------------------------------- configuration

  datatype RuleConfig = RuleConfig(
    name: string,
    minBots: int,
    maxBots: int,
    botGroups: seq<string>,
    priority: int,
    schedule: Schedule)

  datatype RuleError =
    | NegativeMin | MaxBelowMin | NoGroups | UnknownGroup | TooFewBots | BadSchedule(error: ScheduleError)

  type Groups = map<string, seq<string>>

  predicate KnownGroups(c: RuleConfig, groups: Groups) {
    forall g :: g in c.botGroups ==> g in groups
  }

  /** The bots tagged into any of the rule's groups, all of which a validated rule knows. */
  function EligibleBots(c: RuleConfig, groups: Groups): set<string> {
    set g, b | g in c.botGroups && g in groups && b in groups[g] :: b
  }

  /** The load-time checks of one rule, in the order the server makes them. */
  function ValidateRule(c: RuleConfig, groups: Groups, strict: bool): Result<RuleConfig, RuleError> {
    if c.minBots < 0 then Err(NegativeMin)
    else if c.maxBots != 0 && c.maxBots < c.minBots then Err(MaxBelowMin)
    else if c.botGroups == [] then Err(NoGroups)
    else if !KnownGroups(c, groups) then Err(UnknownGroup)
    else if strict && c.minBots > |EligibleBots(c, groups)| then Err(TooFewBots)
    else match ValidateSchedule(c.schedule)
         case Err(e) => Err(BadSchedule(e))
         case Ok(_) => Ok(c)
  }

  /** Rules in processing order: by priority, then by name. */
  predicate RuleLe(tables: map<string, RuleConfig>, a: string, b: string) {
    if a !in tables then b in tables || NameLe(a, b)
    else b in tables && (tables[a].priority < tables[b].priority
                         || (tables[a].priority == tables[b].priority && NameLe(a, b)))
  }

  lemma RulesAreOrdered(tables: map<string, RuleConfig>)
    ensures TotalOrder((a: string, b: string) => RuleLe(tables, a, b))
  {
    NamesAreOrdered();
  }

  /** A configuration that passed validation. */
  ghost predicate ValidTables(tables: map<string, RuleConfig>, groups: Groups, strict: bool) {
    forall n :: n in tables ==> tables[n].name == n && ValidateRule(tables[n], groups, strict).Ok?
  }

  /** The rule names in processing order. */
  function RuleNames(tables: map<string, RuleConfig>): (names: seq<string>)
    ensures |names| == |tables.Keys| && forall n :: n in names <==> n in tables.Keys
    ensures forall i :: 0 <= i < |names| ==> names[i] in tables
    ensures forall i, j :: 0 <= i < j < |names| ==> names[i] != names[j] && RuleLe(tables, names[i], names[j])
  {
    RulesAreOrdered(tables);
    Sorted((a: string, b: string) => RuleLe(tables, a, b), tables.Keys)
  }

  function ConfigsOf(tables: map<string, RuleConfig>, names: seq<string>): (configs: seq<RuleConfig>)
    requires forall n :: n in names ==> n in tables
    ensures |configs| == |names| && forall i :: 0 <= i < |names| ==> configs[i] == tables[names[i]]
  {
    if names == [] then [] else [tables[names[0]]] + ConfigsOf(tables, names[1..])
  }

  /** The rules in processing order. */
  function GuidedOrder(tables: map<string, RuleConfig>): (order: seq<RuleConfig>)
    ensures |order| == |RuleNames(tables)|
    ensures forall i :: 0 <= i < |order| ==>
              RuleNames(tables)[i] in tables && order[i] == tables[RuleNames(tables)[i]]
  {
    ConfigsOf(tables, RuleNames(tables))
  }

  /** No rule comes after one of later priority, and none appears twice. */
  lemma GuidedOrderIsSorted(tables: map<string, RuleConfig>, i: nat, j: nat)
    requires forall n :: n in tables ==> tables[n].name == n
    requires i < j < |GuidedOrder(tables)|
    ensures var a, b := GuidedOrder(tables)[i], GuidedOrder(tables)[j];
            a.name != b.name && (a.priority < b.priority || (a.priority == b.priority && NameLe(a.name, b.name)))
  {
    var names := RuleNames(tables);
    assert names[i] != names[j] && RuleLe(tables, names[i], names[j]);
    assert names[i] in tables && names[j] in tables;
  }

  /** Every rule appears. */
  lemma GuidedOrderIsComplete(tables: map<string, RuleConfig>, name: string) returns (i: nat)
    requires name in tables
    ensures i < |GuidedOrder(tables)| && GuidedOrder(tables)[i] == tables[name]
  {
    assert name in RuleNames(tables);
    i :| 0 <= i < |RuleNames(tables)| && RuleNames(tables)[i] == name;
  }

  /** What validation guarantees the allocator. */
  lemma OrderIsUsable(tables: map<string, RuleConfig>, groups: Groups, strict: bool)
    requires ValidTables(tables, groups, strict)
    ensures var order := GuidedOrder(tables);
            && (forall i :: 0 <= i < |order| ==> KnownGroups(order[i], groups) && order[i].name in tables)
            && (forall i, j :: 0 <= i < j < |order| ==> order[i].name != order[j].name)
  {
    hide RuleNames, RuleLe, ConfigsOf, EligibleBots, ValidateSchedule, NameLe;
    var order := GuidedOrder(tables);
    forall i | 0 <= i < |order| ensures KnownGroups(order[i], groups) && order[i].name in tables {
      var n := RuleNames(tables)[i];
      assert n in tables && ValidateRule(tables[n], groups, strict).Ok?;
    }
    forall i, j | 0 <= i < j < |order| ensures order[i].name != order[j].name {
      GuidedOrderIsSorted(tables, i, j);
    }
  }

  // ---------------------------------------------------------- validation

  /** A rule is accepted exactly if its minimum is not negative, its cap is none or no less than the minimum, it
      lists groups and all of them are known, its window lies within its cycle, and in strict mode its groups have
      enough bots; and it is accepted as it is. */
  lemma AcceptedRuleIff(c: RuleConfig, groups: Groups, strict: bool)
    ensures ValidateRule(c, groups, strict).Ok? <==>
              && 0 <= c.minBots && (c.maxBots == 0 || c.minBots <= c.maxBots)
              && c.botGroups != [] && (forall g :: g in c.botGroups ==> g in groups)
              && (strict ==> c.minBots <= |set g, b | g in c.botGroups && g in groups && b in groups[g] :: b|)
              && (c.schedule.activeWindow.Some? ==>
                    var w := c.schedule.activeWindow.value;
                    0 <= w.start < c.schedule.cycleTicks && 0 <= w.end <= c.schedule.cycleTicks)
    ensures ValidateRule(c, groups, strict).Ok? ==> ValidateRule(c, groups, strict).value == c
  {
    AcceptedIff(c.schedule);
    hide ValidateSchedule;
    assert EligibleBots(c, groups) == set g, b | g in c.botGroups && g in groups && b in groups[g] :: b;
  }

  /** Of several faults the first in the server's order is reported. */
  lemma FirstFaultIsReported(c: RuleConfig, groups: Groups, strict: bool)
    requires ValidateRule(c, groups, strict).Err?
    ensures var e := ValidateRule(c, groups, strict).error;
            && (e == NegativeMin <==> c.minBots < 0)
            && (e == MaxBelowMin <==> c.maxBots != 0 && c.maxBots < c.minBots && 0 <= c.minBots)
            && (e.NoGroups? || e.UnknownGroup? || e.TooFewBots? || e.BadSchedule? ==>
                  0 <= c.minBots && (c.maxBots == 0 || c.minBots <= c.maxBots))
            && (e == NoGroups ==> c.botGroups == [])
            && (e == UnknownGroup ==> exists g :: g in c.botGroups && g !in groups)
            && (e.TooFewBots? || e.BadSchedule? ==> c.botGroups != [] && forall g :: g in c.botGroups ==> g in groups)
            && (e == TooFewBots ==> strict && c.minBots > |EligibleBots(c, groups)|)
            && (e.BadSchedule? ==> ValidateSchedule(c.schedule) == Err(e.error)
                                   && (strict ==> c.minBots <= |EligibleBots(c, groups)|))
  {
    hide ValidateSchedule, EligibleBots;
  }
}
