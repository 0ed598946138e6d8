/**
 One allocation pass of server/core/virtual_bots.py over the guided-table rules: a sticky,
 priority-ordered greedy assignment of bots, rerun every tick.
 */
module GuidedPass {
  import opened Wrappers
  import opened Ordering

  /** A rule's turn in a pass: whether it is active now, and the bots tagged for it. */
  datatype Turn = Turn(name: string, active: bool, eligible: set<string>, minBots: int, maxBots: int)

  /** What one pass looks at: the turns in order, who each rule holds, and the instantiated bots. */
  datatype Pass = Pass(turns: seq<Turn>, held: map<string, set<string>>, bots: set<string>)

  function HeldBy(held: map<string, set<string>>, name: string): set<string> {
    if name in held then held[name] else {}
  }

  /** Walks sorted names, adding each until the cap is met; zero means no cap. */
  function Fill(names: seq<string>, chosen: set<string>, maxBots: int): set<string> {
    if names == [] then chosen
    else if names[0] in chosen then Fill(names[1..], chosen, maxBots)
    else if maxBots > 0 && |chosen| >= maxBots then chosen
    else Fill(names[1..], chosen + {names[0]}, maxBots)
  }

  /** A rule's new bots: those it holds and may keep, topped up in name order. */
  function Choose(held: set<string>, usable: set<string>, maxBots: int): set<string> {
    NamesAreOrdered();
    Fill(Sorted(NameLe, usable), held * usable, maxBots)
  }

  /** The bots turn i may still use. */
  function Usable(p: Pass, i: nat): set<string>
    requires i < |p.turns|
    decreases i, 1
  {
    p.turns[i].eligible * (p.bots - Taken(p, i))
  }

  /** The bots turn i is given. */
  function Given(p: Pass, i: nat): set<string>
    requires i < |p.turns|
    decreases i, 2
  {
    if p.turns[i].active then Choose(HeldBy(p.held, p.turns[i].name), Usable(p, i), p.turns[i].maxBots) else {}
  }

  /** The bots taken by the first n turns. */
  function Taken(p: Pass, n: nat): set<string>
    requires n <= |p.turns|
    decreases n, 0
  {
    if n == 0 then {} else Taken(p, n - 1) + Given(p, n - 1)
  }

  /** Turn i is active and ends below its minimum. */
  predicate Short(p: Pass, i: nat)
    requires i < |p.turns|
  {
    p.turns[i].active && |Given(p, i)| < p.turns[i].minBots
  }

  /** How many turns are taken: in strict mode the pass stops with an error at the first short one. */
  function Processed(p: Pass, strict: bool, from: nat): (n: nat)
    requires from <= |p.turns|
    ensures from <= n <= |p.turns|
    decreases |p.turns| - from
  {
    if from == |p.turns| then from
    else if strict && Short(p, from) then from + 1
    else Processed(p, strict, from + 1)
  }

  /** The pass raises: it is strict and the last turn it took is short. */
  predicate Raises(p: Pass, strict: bool) {
    var n := Processed(p, strict, 0);
    strict && n > 0 && Short(p, n - 1)
  }

  /** Who holds what after the first n turns. */
  function HeldAfter(p: Pass, n: nat): map<string, set<string>>
    requires n <= |p.turns|
  {
    if n == 0 then p.held else HeldAfter(p, n - 1)[p.turns[n - 1].name := Given(p, n - 1)]
  }

  /** The bots' targets after the first n turns. */
  function TargetsAfter(p: Pass, n: nat): (targets: map<string, Option<string>>)
    requires n <= |p.turns|
    ensures targets.Keys == p.bots
  {
    if n == 0 then map b | b in p.bots :: None
    else Retarget(TargetsAfter(p, n - 1), Given(p, n - 1), p.turns[n - 1].name)
  }

  function Retarget(targets: map<string, Option<string>>, given: set<string>, name: string)
    : (targets': map<string, Option<string>>)
    ensures targets'.Keys == targets.Keys
  {
    map b | b in targets :: if b in given then Some(name) else targets[b]
  }

  /** The shortage flags after the first n turns, none of which raised. */
  function WarnedAfter(p: Pass, warned: map<string, bool>, n: nat): map<string, bool>
    requires n <= |p.turns|
  {
    if n == 0 then warned
    else if p.turns[n - 1].active then WarnedAfter(p, warned, n - 1)[p.turns[n - 1].name := Short(p, n - 1)]
    else WarnedAfter(p, warned, n - 1)
  }

  /** What a whole pass leaves behind: who holds what, the targets, the flags, and its error if it raised. */
  datatype PassResult = PassResult(
    held: map<string, set<string>>,
    targets: map<string, Option<string>>,
    warned: map<string, bool>,
    raised: Option<string>)

  function RunPass(p: Pass, warned: map<string, bool>, strict: bool): PassResult {
    var n := Processed(p, strict, 0);
    if Raises(p, strict) then
      PassResult(HeldAfter(p, n), TargetsAfter(p, n), WarnedAfter(p, warned, n - 1), Some(p.turns[n - 1].name))
    else
      PassResult(HeldAfter(p, n), TargetsAfter(p, n), WarnedAfter(p, warned, n), None)
  }
}
