/**
 What an allocation pass guarantees, and what a run of passes keeps.
 */
module GuidedTheorems {
  import opened Wrappers
  import opened Arithmetic
  import opened Ordering
  import opened GuidedPass

  // ------------------------------------------------------ topping up a rule

  /** Topping up only adds, and only from the names offered. */
  lemma {:induction false} FillBounds(names: seq<string>, chosen: set<string>, maxBots: int, all: set<string>)
    requires chosen <= all && forall n :: n in names ==> n in all
    ensures chosen <= Fill(names, chosen, maxBots) <= all
  {
    if names == [] {
    } else {
      FillBounds(names[1..], chosen, maxBots, all);
      FillBounds(names[1..], chosen + {names[0]}, maxBots, all);
    }
  }

  /** Topping up adds until the cap is met or nobody is left. */
  lemma {:induction false} FillSize(names: seq<string>, chosen: set<string>, maxBots: int, all: set<string>)
    requires chosen <= all && forall n :: n in all <==> n in chosen || n in names
    ensures maxBots <= 0 ==> Fill(names, chosen, maxBots) == all
    ensures maxBots > 0 ==> |Fill(names, chosen, maxBots)| == Max(|chosen|, Min(maxBots, |all|))
  {
    SubsetSize(chosen, all);
    if names == [] {
      assert chosen == all;
    } else if names[0] in chosen {
      FillSize(names[1..], chosen, maxBots, all);
    } else if maxBots <= 0 || |chosen| < maxBots {
      SubsetSize(chosen + {names[0]}, all);
      FillSize(names[1..], chosen + {names[0]}, maxBots, all);
    }
  }

  lemma {:induction false} SubsetSize(a: set<string>, b: set<string>)
    requires a <= b
    ensures |a| <= |b|
    ensures |a| == |b| ==> a == b
    decreases |a|
  {
    if a != {} {
      var x :| x in a;
      SubsetSize(a - {x}, b - {x});
      assert a == a - {x} + {x} && b == b - {x} + {x};
    } else {
      assert |b| == 0 ==> b == {};
    }
  }

  /** Names are taken from the front: whoever is added precedes whoever is left out. */
  lemma {:induction false} FillTakesFirst(names: seq<string>, chosen: set<string>, maxBots: int, a: string, b: string)
    requires SortedBy(NameLe, names)
    requires a in Fill(names, chosen, maxBots) && a !in chosen
    requires b in names && b !in Fill(names, chosen, maxBots)
    ensures NameLe(a, b)
  {
    var rest := names[1..];
    assert forall i :: 0 <= i < |rest| ==> rest[i] == names[i + 1];
    assert SortedBy(NameLe, rest);
    if names[0] in chosen {
      FillKeeps(rest, chosen, maxBots);
      FillTakesFirst(rest, chosen, maxBots, a, b);
    } else {
      FillKeeps(rest, chosen + {names[0]}, maxBots);
      if a == names[0] {
        var i :| 0 <= i < |names| && names[i] == b;
        assert i > 0;
      } else {
        FillTakesFirst(rest, chosen + {names[0]}, maxBots, a, b);
      }
    }
  }

  lemma {:induction false} FillKeeps(names: seq<string>, chosen: set<string>, maxBots: int)
    ensures chosen <= Fill(names, chosen, maxBots)
  {
    if names == [] {
    } else {
      FillKeeps(names[1..], chosen, maxBots);
      FillKeeps(names[1..], chosen + {names[0]}, maxBots);
    }
  }

  /** A rule's new bots: it keeps all it may keep, takes only usable ones, meets its cap exactly when
      enough are usable, and prefers smaller names. */
  lemma ChoiceIsDetermined(held: set<string>, usable: set<string>, maxBots: int)
    ensures var r := Choose(held, usable, maxBots);
            && held * usable <= r <= usable
            && (maxBots <= 0 ==> r == usable)
            && (maxBots > 0 ==> |r| == Max(|held * usable|, Min(maxBots, |usable|)))
            && (forall a, b :: a in r - held && b in usable - r ==> NameLe(a, b))
  {
    NamesAreOrdered();
    var names := Sorted(NameLe, usable);
    var r := Choose(held, usable, maxBots);
    FillBounds(names, held * usable, maxBots, usable);
    FillSize(names, held * usable, maxBots, usable);
    forall a, b | a in r - held && b in usable - r ensures NameLe(a, b) {
      FillTakesFirst(names, held * usable, maxBots, a, b);
    }
  }

  // -------------------------------------------------------------- one pass

  /** Later turns only add to what is taken. */
  lemma {:induction false} TakenGrows(p: Pass, i: nat, j: nat)
    requires i <= j <= |p.turns|
    ensures Taken(p, i) <= Taken(p, j)
  {
    hide Given;
    if i < j {
      TakenGrows(p, i, j - 1);
    }
  }

  lemma GivenIsUsable(p: Pass, i: nat)
    requires i < |p.turns|
    ensures Given(p, i) <= Usable(p, i)
  {
    hide Choose;
    ChoiceIsDetermined(HeldBy(p.held, p.turns[i].name), Usable(p, i), p.turns[i].maxBots);
  }

  /** No bot is given to two rules. */
  lemma RulesAreDisjoint(p: Pass, i: nat, j: nat)
    requires i < j < |p.turns|
    ensures Given(p, i) !! Given(p, j)
  {
    hide Choose;
    GivenIsUsable(p, j);
    TakenGrows(p, i + 1, j);
    assert Given(p, i) <= Taken(p, i + 1) <= Taken(p, j);
  }

  /** Only instantiated, tagged bots are given out, and inactive rules get none. */
  lemma GivenBotsAreEligible(p: Pass, i: nat)
    requires i < |p.turns|
    ensures Given(p, i) <= p.turns[i].eligible * p.bots
    ensures !p.turns[i].active ==> Given(p, i) == {}
  {
    hide Choose;
    GivenIsUsable(p, i);
  }

  /** A bot given to a rule has that rule as its target. */
  lemma {:induction false} TargetIsHolder(p: Pass, n: nat, bot: string, i: nat)
    requires i < n <= |p.turns| && bot in p.bots && bot in Given(p, i)
    ensures TargetsAfter(p, n)[bot] == Some(p.turns[i].name)
  {
    hide Given;
    if i < n - 1 {
      RulesAreDisjoint(p, i, n - 1);
      TargetIsHolder(p, n - 1, bot, i);
    }
  }

  /** A bot with a target was given to the rule of that name. */
  lemma {:induction false} TargetHasHolder(p: Pass, n: nat, bot: string) returns (i: nat)
    requires n <= |p.turns| && bot in p.bots && TargetsAfter(p, n)[bot].Some?
    ensures i < n && bot in Given(p, i) && TargetsAfter(p, n)[bot] == Some(p.turns[i].name)
  {
    hide Given;
    if bot in Given(p, n - 1) {
      i := n - 1;
    } else {
      i := TargetHasHolder(p, n - 1, bot);
    }
  }

  /** Each rule is recorded as holding exactly what its turn gave it. */
  lemma {:induction false} HoldingsAgree(p: Pass, n: nat, i: nat)
    requires i < n <= |p.turns|
    requires forall j, k :: 0 <= j < k < |p.turns| ==> p.turns[j].name != p.turns[k].name
    ensures HeldBy(HeldAfter(p, n), p.turns[i].name) == Given(p, i)
  {
    hide Given;
    if i < n - 1 {
      HoldingsAgree(p, n - 1, i);
    }
  }

  /** An active rule that came within its cap gets exactly the smaller of its cap and the eligible
      bots the earlier rules left. */
  lemma SizeIsExact(p: Pass, i: nat)
    requires i < |p.turns| && p.turns[i].active
    requires p.turns[i].maxBots > 0 ==> |HeldBy(p.held, p.turns[i].name)| <= p.turns[i].maxBots
    ensures var left := |p.turns[i].eligible * (p.bots - Taken(p, i))|;
            |Given(p, i)| == if p.turns[i].maxBots > 0 then Min(p.turns[i].maxBots, left) else left
  {
    hide Choose;
    var held := HeldBy(p.held, p.turns[i].name);
    ChoiceIsDetermined(held, Usable(p, i), p.turns[i].maxBots);
    SubsetSize(held * Usable(p, i), held);
    SubsetSize(held * Usable(p, i), Usable(p, i));
  }

  /** A rule below its minimum has used up everyone it could: no later rule holds a bot it could have used. */
  lemma NoStarvation(p: Pass, i: nat, j: nat)
    requires i < j < |p.turns| && Short(p, i)
    requires p.turns[i].maxBots > 0 ==> p.turns[i].minBots <= p.turns[i].maxBots
    ensures Given(p, j) !! p.turns[i].eligible
  {
    hide Choose;
    ChoiceIsDetermined(HeldBy(p.held, p.turns[i].name), Usable(p, i), p.turns[i].maxBots);
    assert Given(p, i) == Usable(p, i) by {
      SubsetSize(Given(p, i), Usable(p, i));
    }
    GivenIsUsable(p, j);
    TakenGrows(p, i + 1, j);
    assert Usable(p, i) <= Taken(p, i + 1) <= Taken(p, j);
    assert Taken(p, i) <= Taken(p, i + 1);
  }

  /** A bot leaves an active rule that may still use it only because an earlier rule took it. */
  lemma Sticky(p: Pass, i: nat, bot: string)
    requires i < |p.turns| && p.turns[i].active
    requires bot in HeldBy(p.held, p.turns[i].name) && bot in p.turns[i].eligible && bot in p.bots
    ensures bot in Given(p, i) || exists j :: 0 <= j < i && bot in Given(p, j)
  {
    hide Choose;
    ChoiceIsDetermined(HeldBy(p.held, p.turns[i].name), Usable(p, i), p.turns[i].maxBots);
    if bot !in Given(p, i) {
      TakenBySomeone(p, i, bot);
    }
  }

  lemma {:induction false} TakenBySomeone(p: Pass, n: nat, bot: string)
    requires n <= |p.turns| && bot in Taken(p, n)
    ensures exists j :: 0 <= j < n && bot in Given(p, j)
  {
    hide Given;
    if bot !in Given(p, n - 1) {
      TakenBySomeone(p, n - 1, bot);
    }
  }

  /** A strict pass raises exactly when some rule is short, and names the first such rule. */
  lemma {:induction false} RaisesAtFirstShort(p: Pass, strict: bool, from: nat)
    requires from <= |p.turns|
    ensures var n := Processed(p, strict, from);
            && (forall i :: from <= i < n - 1 ==> !(strict && Short(p, i)))
            && (n < |p.turns| ==> n > from && strict && Short(p, n - 1))
    decreases |p.turns| - from
  {
    hide Short;
    if from < |p.turns| && !(strict && Short(p, from)) {
      RaisesAtFirstShort(p, strict, from + 1);
    }
  }

  lemma StrictPassRaisesIff(p: Pass, warned: map<string, bool>, strict: bool)
    ensures RunPass(p, warned, strict).raised.Some? <==> strict && exists i :: 0 <= i < |p.turns| && Short(p, i)
    ensures !strict ==> Processed(p, strict, 0) == |p.turns|
  {
    hide Short, HeldAfter, TargetsAfter, WarnedAfter;
    RaisesAtFirstShort(p, strict, 0);
  }

  /** What a strict pass that raises leaves: the error names the first short rule; the rules up to it hold what
      they were given and the later ones what they held; the rules before it are marked as not short, and no other
      flag has changed. */
  lemma RaisedPassLeaves(p: Pass, warned: map<string, bool>, i: nat, k: nat)
    requires forall j, l :: 0 <= j < l < |p.turns| ==> p.turns[j].name != p.turns[l].name
    requires i < |p.turns| && Short(p, i) && (forall j :: 0 <= j < i ==> !Short(p, j)) && k < |p.turns|
    ensures var r := RunPass(p, warned, true);
            var name := p.turns[k].name;
            && r.raised == Some(p.turns[i].name)
            && HeldBy(r.held, name) == (if k <= i then Given(p, k) else HeldBy(p.held, name))
            && (if k < i && p.turns[k].active then name in r.warned && !r.warned[name]
                else (name in r.warned <==> name in warned) && (name in warned ==> r.warned[name] == warned[name]))
  {
    hide Short, Given, TargetsAfter;
    RaisesAtFirstShort(p, true, 0);
    var n := Processed(p, true, 0);
    assert n == i + 1;
    HeldSplit(p, n, k);
    FlagSplit(p, warned, i, k);
  }

  lemma {:induction false} HeldSplit(p: Pass, n: nat, k: nat)
    requires forall j, l :: 0 <= j < l < |p.turns| ==> p.turns[j].name != p.turns[l].name
    requires n <= |p.turns| && k < |p.turns|
    ensures HeldBy(HeldAfter(p, n), p.turns[k].name) == if k < n then Given(p, k) else HeldBy(p.held, p.turns[k].name)
  {
    hide Given;
    if n == 0 {
    } else {
      HeldSplit(p, n - 1, k);
    }
  }

  lemma {:induction false} FlagSplit(p: Pass, warned: map<string, bool>, n: nat, k: nat)
    requires forall j, l :: 0 <= j < l < |p.turns| ==> p.turns[j].name != p.turns[l].name
    requires n <= |p.turns| && k < |p.turns|
    ensures var w := WarnedAfter(p, warned, n);
            var name := p.turns[k].name;
            if k < n && p.turns[k].active then name in w && w[name] == Short(p, k)
            else (name in w <==> name in warned) && (name in warned ==> w[name] == warned[name])
  {
    hide Short;
    if n == 0 {
    } else {
      FlagSplit(p, warned, n - 1, k);
    }
  }

  /** Whether a pass returns or raises: a bot's target afterwards is the rule it was given to among those
      processed, and there is none otherwise. */
  lemma TargetsArePass(p: Pass, warned: map<string, bool>, strict: bool, bot: string, i: nat)
    requires bot in p.bots
    ensures var r := RunPass(p, warned, strict);
            var n := Processed(p, strict, 0);
            && bot in r.targets
            && (i < n && bot in Given(p, i) ==> r.targets[bot] == Some(p.turns[i].name))
            && (r.targets[bot].Some? ==> exists j :: 0 <= j < n && bot in Given(p, j))
  {
    hide Given, Short;
    var n := Processed(p, strict, 0);
    if i < n && bot in Given(p, i) {
      TargetIsHolder(p, n, bot, i);
    }
    if TargetsAfter(p, n)[bot].Some? {
      var j := TargetHasHolder(p, n, bot);
    }
  }

  // ----------------------------------------------------- passes in a row

  /** Choosing again from what was just chosen changes nothing. */
  lemma ChoiceIsStable(held: set<string>, usable: set<string>, maxBots: int)
    ensures Choose(Choose(held, usable, maxBots), usable, maxBots) == Choose(held, usable, maxBots)
  {
    hide Choose;
    var r := Choose(held, usable, maxBots);
    ChoiceIsDetermined(held, usable, maxBots);
    ChoiceIsDetermined(r, usable, maxBots);
    assert r * usable == r;
    SubsetSize(r, Choose(r, usable, maxBots));
    SubsetSize(r, usable);
    SubsetSize(held * usable, usable);
  }

  /** Rerunning a pass on its own outcome, with the same bots and activity, gives everyone the same. */
  lemma {:induction false} PassIsIdempotent(p: Pass, i: nat)
    requires forall j, k :: 0 <= j < k < |p.turns| ==> p.turns[j].name != p.turns[k].name
    requires i <= |p.turns|
    ensures var p' := p.(held := HeldAfter(p, |p.turns|));
            && Taken(p', i) == Taken(p, i)
            && (i < |p.turns| ==> Given(p', i) == Given(p, i))
  {
    hide Choose, HeldAfter;
    var p' := p.(held := HeldAfter(p, |p.turns|));
    if i > 0 {
      PassIsIdempotent(p, i - 1);
    }
    if i < |p.turns| {
      HoldingsAgree(p, |p.turns|, i);
      ChoiceIsStable(HeldBy(p.held, p.turns[i].name), Usable(p, i), p.turns[i].maxBots);
    }
  }

  /** Rewriting every entry with what it already is. */
  lemma {:induction false} RerunHeld(p: Pass, k: nat)
    requires forall i, j :: 0 <= i < j < |p.turns| ==> p.turns[i].name != p.turns[j].name
    requires k <= |p.turns|
    ensures var after := HeldAfter(p, |p.turns|); HeldAfter(p.(held := after), k) == after
  {
    hide Given;
    if k == 0 {
    } else {
      RerunHeld(p, k - 1);
      PassIsIdempotent(p, k - 1);
      EntryIsWritten(p, |p.turns|, k - 1);
      HoldingsAgree(p, |p.turns|, k - 1);
    }
  }

  lemma {:induction false} EntryIsWritten(p: Pass, n: nat, i: nat)
    requires i < n <= |p.turns|
    ensures p.turns[i].name in HeldAfter(p, n)
  {
    hide Given;
    if i < n - 1 {
      EntryIsWritten(p, n - 1, i);
    }
  }

  lemma {:induction false} RerunTargets(p: Pass, k: nat)
    requires forall i, j :: 0 <= i < j < |p.turns| ==> p.turns[i].name != p.turns[j].name
    requires k <= |p.turns|
    ensures TargetsAfter(p.(held := HeldAfter(p, |p.turns|)), k) == TargetsAfter(p, k)
  {
    hide Given, HeldAfter;
    if k == 0 {
    } else {
      RerunTargets(p, k - 1);
      PassIsIdempotent(p, k - 1);
    }
  }

  /** The flag an active rule ends up with. */
  lemma {:induction false} FlagIsWritten(p: Pass, warned: map<string, bool>, n: nat, i: nat)
    requires forall j, k :: 0 <= j < k < |p.turns| ==> p.turns[j].name != p.turns[k].name
    requires i < n <= |p.turns| && p.turns[i].active
    ensures var w := WarnedAfter(p, warned, n); p.turns[i].name in w && w[p.turns[i].name] == Short(p, i)
  {
    hide Short;
    if i < n - 1 {
      FlagIsWritten(p, warned, n - 1, i);
    }
  }

  lemma {:induction false} RerunFlags(p: Pass, warned: map<string, bool>, k: nat)
    requires forall i, j :: 0 <= i < j < |p.turns| ==> p.turns[i].name != p.turns[j].name
    requires k <= |p.turns|
    ensures var w := WarnedAfter(p, warned, |p.turns|);
            WarnedAfter(p.(held := HeldAfter(p, |p.turns|)), w, k) == w
  {
    hide Given, HeldAfter;
    if k == 0 {
    } else {
      RerunFlags(p, warned, k - 1);
      PassIsIdempotent(p, k - 1);
      if p.turns[k - 1].active {
        FlagIsWritten(p, warned, |p.turns|, k - 1);
      }
    }
  }

  /** A pass that returned normally, rerun on its outcome with the same bots and activity, changes
      nothing at all: no holding, no target, no flag, and still no error. */
  lemma RerunChangesNothing(p: Pass, warned: map<string, bool>, strict: bool)
    requires forall i, j :: 0 <= i < j < |p.turns| ==> p.turns[i].name != p.turns[j].name
    requires RunPass(p, warned, strict).raised == None
    ensures var r := RunPass(p, warned, strict);
            RunPass(p.(held := r.held), r.warned, strict) == r
  {
    hide Given, HeldAfter, TargetsAfter, WarnedAfter;
    var n := |p.turns|;
    var p' := p.(held := HeldAfter(p, n));
    RaisesAtFirstShort(p, strict, 0);
    RaisesAtFirstShort(p', strict, 0);
    assert Processed(p, strict, 0) == n && !(strict && n > 0 && Short(p, n - 1));
    var m := Processed(p', strict, 0);
    if strict && m > 0 {
      PassIsIdempotent(p, m - 1);
      assert Short(p', m - 1) == Short(p, m - 1);
    }
    assert m == n && !Raises(p', strict);
    assert RunPass(p, warned, strict)
        == PassResult(HeldAfter(p, n), TargetsAfter(p, n), WarnedAfter(p, warned, n), None);
    assert RunPass(p', WarnedAfter(p, warned, n), strict)
        == PassResult(HeldAfter(p', n), TargetsAfter(p', n), WarnedAfter(p', WarnedAfter(p, warned, n), n), None);
    RerunHeld(p, n);
    RerunTargets(p, n);
    RerunFlags(p, warned, n);
  }

  // ------------------------------------------------------- runs of ticks

  /** One tick as the allocator sees it: bots may have come and gone, and activity may have changed. */
  datatype Tick = Tick(turns: seq<Turn>, bots: set<string>)

  /** Who holds what after a run of ticks, passes that raised included. */
  function HeldAfterTicks(held: map<string, set<string>>, ticks: seq<Tick>, strict: bool): map<string, set<string>> {
    if ticks == [] then held
    else
      var t := ticks[|ticks| - 1];
      var p := Pass(t.turns, HeldAfterTicks(held, ticks[..|ticks| - 1], strict), t.bots);
      RunPass(p, map[], strict).held
  }

  /** Nobody holds more than the cap of its rule; zero means no cap. */
  ghost predicate WithinCaps(held: map<string, set<string>>, caps: map<string, int>) {
    forall n :: n in held && n in caps && caps[n] > 0 ==> |held[n]| <= caps[n]
  }

  lemma {:induction false} TurnsKeepCaps(p: Pass, n: nat, caps: map<string, int>)
    requires n <= |p.turns| && WithinCaps(p.held, caps)
    requires forall i :: 0 <= i < |p.turns| ==> p.turns[i].name in caps && caps[p.turns[i].name] == p.turns[i].maxBots
    ensures WithinCaps(HeldAfter(p, n), caps)
  {
    hide Given;
    if n == 0 {
    } else {
      TurnsKeepCaps(p, n - 1, caps);
      GivenBotsAreEligible(p, n - 1);
      if p.turns[n - 1].active {
        SizeIsExact(p, n - 1);
      }
    }
  }

  /** From empty assignments the caps hold after every tick, whatever bots come and go, whichever
      rules are active, and even when strict passes raise half way. */
  lemma {:induction false} CapsHoldAcrossTicks(names: set<string>, ticks: seq<Tick>, strict: bool,
                                               caps: map<string, int>)
    requires forall t, i :: t in ticks && 0 <= i < |t.turns| ==>
               t.turns[i].name in caps && caps[t.turns[i].name] == t.turns[i].maxBots
    ensures WithinCaps(HeldAfterTicks(map n | n in names :: {}, ticks, strict), caps)
  {
    hide HeldAfter, TargetsAfter, WarnedAfter;
    if ticks == [] {
    } else {
      var before, t := ticks[..|ticks| - 1], ticks[|ticks| - 1];
      CapsHoldAcrossTicks(names, before, strict, caps);
      var p := Pass(t.turns, HeldAfterTicks(map n | n in names :: {}, before, strict), t.bots);
      TurnsKeepCaps(p, Processed(p, strict, 0), caps);
    }
  }

  /** So after any run of ticks from empty assignments, each active rule of the next pass is given exactly the
      smaller of its cap and the eligible bots the earlier rules left. */
  lemma SizesAcrossTicks(names: set<string>, ticks: seq<Tick>, strict: bool, caps: map<string, int>, next: Tick, i: nat)
    requires forall t, k :: (t in ticks || t == next) && 0 <= k < |t.turns| ==>
               t.turns[k].name in caps && caps[t.turns[k].name] == t.turns[k].maxBots
    requires i < |next.turns| && next.turns[i].active
    ensures var p := Pass(next.turns, HeldAfterTicks(map n | n in names :: {}, ticks, strict), next.bots);
            var left := |next.turns[i].eligible * (next.bots - Taken(p, i))|;
            |Given(p, i)| == if next.turns[i].maxBots > 0 then Min(next.turns[i].maxBots, left) else left
  {
    hide Given, HeldAfterTicks;
    CapsHoldAcrossTicks(names, ticks, strict, caps);
    SizeIsExact(Pass(next.turns, HeldAfterTicks(map n | n in names :: {}, ticks, strict), next.bots), i);
  }
}
