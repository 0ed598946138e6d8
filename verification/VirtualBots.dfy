/**
 The part of server/core/virtual_bots.py that assigns bots to guided tables, as the manager runs it.
 */
module VirtualBots {
  import opened Wrappers
  import opened Ordering
  import opened ActivityWindows
  import opened GuidedTables
  import opened GuidedPass
  import opened GuidedTheorems

  /** A rule's turn at a tick. */
  function TurnOf(c: RuleConfig, groups: Groups, counter: nat): Turn {
    Turn(c.name, IsActive(c.schedule, counter), EligibleBots(c, groups), c.minBots, c.maxBots)
  }

  function TurnsOf(order: seq<RuleConfig>, groups: Groups, counter: nat): (turns: seq<Turn>)
    ensures |turns| == |order| && forall i :: 0 <= i < |order| ==> turns[i].name == order[i].name
  {
    if order == [] then [] else [TurnOf(order[0], groups, counter)] + TurnsOf(order[1..], groups, counter)
  }

  class VirtualBotManager {
    var tables: map<string, RuleConfig>
    var groups: Groups
    var strict: bool
    var bots: map<string, Option<string>>         // bot name -> target rule
    var assignedBots: map<string, set<string>>    // rule name -> assigned bots
    var warned: map<string, bool>                 // rule name -> shortage reported
    var tickCounter: nat

    ghost predicate Valid() reads this {
      ValidTables(tables, groups, strict) && assignedBots.Keys == tables.Keys
    }

    /** The rules' turns at this tick, in processing order. */
    function CurrentTurns(): seq<Turn>
      reads this
    {
      TurnsOf(GuidedOrder(tables), groups, tickCounter)
    }

    /** What a pass would look at now. */
    ghost function CurrentPass(): Pass
      reads this
    {
      Pass(CurrentTurns(), assignedBots, bots.Keys)
    }

    /** Tops a rule's retained bots up, in name order, from the usable ones. */
    method TopUp(retained: set<string>, usable: set<string>, maxBots: int) returns (chosen: set<string>)
      requires retained <= usable
      ensures chosen == Choose(retained, usable, maxBots)
    {
      NamesAreOrdered();
      chosen := retained;
      var names := Sorted(NameLe, usable);
      assert retained * usable == retained;
      var k := 0;
      while k < |names|
        invariant 0 <= k <= |names|
        invariant Fill(names[k..], chosen, maxBots) == Choose(retained, usable, maxBots)
      {
        if names[k] in chosen {
          k := k + 1;
          continue;
        }
        if maxBots > 0 && |chosen| >= maxBots {
          break;
        }
        chosen := chosen + {names[k]};
        k := k + 1;
      }
    }

    /** The bots one rule is given on its turn. */
    method BotsFor(turn: Turn, available: set<string>, ghost p: Pass, ghost i: nat)
      returns (chosen: set<string>)
      requires i < |p.turns| && p.turns[i] == turn
      requires available == p.bots - Taken(p, i)
      requires HeldBy(assignedBots, turn.name) == HeldBy(p.held, turn.name)
      ensures chosen == Given(p, i)
    {
      if !turn.active {
        return {};
      }
      var usable := turn.eligible * available;
      var held := HeldBy(assignedBots, turn.name);
      assert held * usable * usable == held * usable;
      chosen := TopUp(held * usable, usable, turn.maxBots);
      assert usable == Usable(p, i);
    }

    /** The loop over the rules.  In strict mode it raises at the first rule it cannot fill, leaving the
        rules after it as they were. */
    method TakeTurns(turns: seq<Turn>, ghost p: Pass) returns (raised: Option<string>)
      requires p == Pass(turns, assignedBots, bots.Keys)
      requires forall j, k :: 0 <= j < k < |p.turns| ==> p.turns[j].name != p.turns[k].name
      modifies this`bots, this`assignedBots, this`warned
      ensures RunPass(p, old(warned), strict) == PassResult(assignedBots, bots, warned, raised)
    {
      hide *;
      PassStart(p, warned);
      bots := map b | b in bots :: None;
      var available := bots.Keys;
      var i := 0;
      while i < |turns|
        invariant 0 <= i <= |turns|
        invariant available == p.bots - Taken(p, i)
        invariant assignedBots == HeldAfter(p, i)
        invariant bots == TargetsAfter(p, i)
        invariant warned == WarnedAfter(p, old(warned), i)
        invariant Processed(p, strict, 0) == Processed(p, strict, i)
        invariant i > 0 ==> !(strict && Short(p, i - 1))
      {
        var turn := turns[i];
        HeldUntouched(p, i, i);
        PassStep(p, old(warned), strict, i);
        var chosen := BotsFor(turn, available, p, i);
        available := available - chosen;
        assignedBots := assignedBots[turn.name := chosen];
        bots := Retarget(bots, chosen, turn.name);
        if turn.active {
          if |chosen| < turn.minBots {
            if strict {
              PassRaises(p, old(warned), i);
              return Some(turn.name);
            }
            warned := warned[turn.name := true];
          } else {
            warned := warned[turn.name := false];
          }
        }
        i := i + 1;
      }
      PassEnd(p, old(warned), strict);
      return None;
    }

    /** One allocation pass. */
    method ResolveGuidedAssignments() returns (raised: Option<string>)
      requires Valid()
      modifies this`bots, this`assignedBots, this`warned
      ensures Valid()
      ensures RunPass(old(CurrentPass()), old(warned), strict) == PassResult(assignedBots, bots, warned, raised)
    {
      hide RunPass, ValidTables, TurnsOf, GuidedOrder;
      CurrentTurnsAreUsable();
      ghost var p := CurrentPass();
      raised := TakeTurns(CurrentTurns(), p);
      KeysKept(p, old(warned), strict);
    }

    /** In a validated configuration no rule takes two turns, and each is on the books. */
    lemma CurrentTurnsAreUsable()
      requires Valid()
      ensures var turns := CurrentTurns();
              && (forall j, k :: 0 <= j < k < |turns| ==> turns[j].name != turns[k].name)
              && (forall j :: 0 <= j < |turns| ==> turns[j].name in assignedBots)
    {
      hide ValidTables, RuleNames, KnownGroups, EligibleBots, GuidedOrder;
      OrderIsUsable(tables, groups, strict);
    }
  }

  // --------------------------------------------------------------- lemmas

  /** Before the first turn. */
  lemma PassStart(p: Pass, warned: map<string, bool>)
    ensures Taken(p, 0) == {} && HeldAfter(p, 0) == p.held && WarnedAfter(p, warned, 0) == warned
    ensures TargetsAfter(p, 0) == map b | b in p.bots :: None
  {
  }

  /** What one turn does, spelled out. */
  lemma PassStep(p: Pass, warned: map<string, bool>, strict: bool, i: nat)
    requires i < |p.turns|
    ensures Taken(p, i + 1) == Taken(p, i) + Given(p, i)
    ensures HeldAfter(p, i + 1) == HeldAfter(p, i)[p.turns[i].name := Given(p, i)]
    ensures TargetsAfter(p, i + 1) == Retarget(TargetsAfter(p, i), Given(p, i), p.turns[i].name)
    ensures WarnedAfter(p, warned, i + 1) == if p.turns[i].active
                                             then WarnedAfter(p, warned, i)[p.turns[i].name := Short(p, i)]
                                             else WarnedAfter(p, warned, i)
    ensures Processed(p, strict, i) == if strict && Short(p, i) then i + 1 else Processed(p, strict, i + 1)
    ensures Short(p, i) <==> p.turns[i].active && |Given(p, i)| < p.turns[i].minBots
  {
  }

  /** At a short turn of a strict pass. */
  lemma PassRaises(p: Pass, warned: map<string, bool>, i: nat)
    requires i < |p.turns| && Processed(p, true, 0) == Processed(p, true, i) && Short(p, i)
    ensures RunPass(p, warned, true) == PassResult(HeldAfter(p, i + 1), TargetsAfter(p, i + 1),
                                                   WarnedAfter(p, warned, i), Some(p.turns[i].name))
  {
    hide Short, Given;
  }

  /** After the last turn. */
  lemma PassEnd(p: Pass, warned: map<string, bool>, strict: bool)
    requires var n := |p.turns|;
             && Processed(p, strict, 0) == Processed(p, strict, n)
             && (n > 0 ==> !(strict && Short(p, n - 1)))
    ensures var n := |p.turns|;
            RunPass(p, warned, strict)
            == PassResult(HeldAfter(p, n), TargetsAfter(p, n), WarnedAfter(p, warned, n), None)
  {
    hide Short, Given;
  }

  /** A rule whose turn has not come still holds what it held before the pass. */
  lemma {:induction false} HeldUntouched(p: Pass, n: nat, i: nat)
    requires n <= i < |p.turns|
    requires forall j, k :: 0 <= j < k < |p.turns| ==> p.turns[j].name != p.turns[k].name
    ensures HeldBy(HeldAfter(p, n), p.turns[i].name) == HeldBy(p.held, p.turns[i].name)
  {
    if n == 0 {
    } else {
      HeldUntouched(p, n - 1, i);
    }
  }

  /** The first n turns only rewrite the entries of their own rules. */
  lemma {:induction false} KeysKeptBelow(p: Pass, n: nat)
    requires n <= |p.turns| && forall j :: 0 <= j < |p.turns| ==> p.turns[j].name in p.held
    ensures HeldAfter(p, n).Keys == p.held.Keys
  {
    hide Given;
    if n == 0 {
    } else {
      KeysKeptBelow(p, n - 1);
    }
  }

  /** So does the whole pass. */
  lemma KeysKept(p: Pass, warned: map<string, bool>, strict: bool)
    requires forall j :: 0 <= j < |p.turns| ==> p.turns[j].name in p.held
    ensures RunPass(p, warned, strict).held.Keys == p.held.Keys
  {
    hide Short, Given, HeldAfter;
    KeysKeptBelow(p, Processed(p, strict, 0));
  }

  // --------------------------------------------------------- main results

  lemma {:induction false} TurnAt(order: seq<RuleConfig>, groups: Groups, counter: nat, i: nat)
    requires i < |order|
    ensures TurnsOf(order, groups, counter)[i] == TurnOf(order[i], groups, counter)
  {
    hide TurnOf;
    if i == 0 {
    } else {
      TurnAt(order[1..], groups, counter, i - 1);
    }
  }

  /** In a validated configuration a rule left below its minimum never coexists with a rule of later
      priority that holds a bot it could have used. */
  lemma NoPriorityInversion(tables: map<string, RuleConfig>, groups: Groups, strict: bool, counter: nat,
                            held: map<string, set<string>>, bots: set<string>, i: nat, j: nat)
    requires ValidTables(tables, groups, strict)
    requires var order := GuidedOrder(tables);
             i < |order| && j < |order| && order[i].priority < order[j].priority
    requires Short(Pass(TurnsOf(GuidedOrder(tables), groups, counter), held, bots), i)
    ensures var p := Pass(TurnsOf(GuidedOrder(tables), groups, counter), held, bots);
            Given(p, j) !! EligibleBots(GuidedOrder(tables)[i], groups)
  {
    hide TurnsOf, Given, Short, RuleNames, IsActive, EligibleBots;
    var order := GuidedOrder(tables);
    var p := Pass(TurnsOf(order, groups, counter), held, bots);
    TurnAt(order, groups, counter, i);
    var name := RuleNames(tables)[i];
    assert name in tables && ValidateRule(tables[name], groups, strict).Ok?;
    if j < i {
      GuidedOrderIsSorted(tables, j, i);
    }
    NoStarvation(p, i, j);
  }
}
