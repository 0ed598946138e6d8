/**
 Dice that can be kept and locked (server/game_utils/dice.py), and keeping them by face value
 (server/game_utils/dice_game_mixin.py).  The faces a roll comes up with are given to it.
 */
module DiceKeeping {
  import opened Wrappers

  /** A set of dice: the values shown, or none before the first roll; and the indices kept and locked. */
  datatype Dice = Dice(count: nat, sides: nat, values: seq<int>, kept: set<int>, locked: set<int>) {
    predicate HasRolled() {
      |values| == count
    }

    function Value(i: int): Option<int> {
      if HasRolled() && 0 <= i < |values| then Some(values[i]) else None
    }
  }

  function Reset(d: Dice): Dice {
    d.(values := [], kept := {}, locked := {})
  }

  /** The values after a reroll of the dice that are neither kept nor locked. */
  function Rerolled(values: seq<int>, held: set<int>, faces: seq<int>): (r: seq<int>)
    requires |faces| == |values|
    ensures |r| == |values|
    ensures forall i :: 0 <= i < |r| ==> r[i] == if i in held then values[i] else faces[i]
  {
    if values == [] then []
    else
      var n := |values| - 1;
      Rerolled(values[..n], held, faces[..n]) + [if n in held then values[n] else faces[n]]
  }

  function Roll(d: Dice, lockKept: bool, clearKept: bool, faces: seq<int>): Dice
    requires |faces| == d.count
  {
    if !d.HasRolled() then d.(values := faces)
    else
      var locked := if lockKept then d.locked + d.kept else d.locked;
      d.(values := Rerolled(d.values, locked + d.kept, faces), locked := locked,
         kept := if clearKept then locked else d.kept)
  }

  function Keep(d: Dice, i: int): Dice {
    if i in d.locked then d else d.(kept := d.kept + {i})
  }

  function Unkeep(d: Dice, i: int): Dice {
    if i in d.locked then d else d.(kept := d.kept - {i})
  }

  function Toggle(d: Dice, i: int): Dice {
    if i in d.kept then Unkeep(d, i) else Keep(d, i)
  }

  /** The first die from index i on that shows a value, is not locked, and is kept or not as wanted. */
  function FindFrom(d: Dice, value: int, wantKept: bool, i: nat): Option<nat>
    decreases d.count - i
  {
    if i >= d.count then None
    else if i !in d.locked && d.Value(i) == Some(value) && (i in d.kept <==> wantKept) then Some(i)
    else FindFrom(d, value, wantKept, i + 1)
  }

  function FindValue(d: Dice, value: int, wantKept: bool): Option<nat> {
    FindFrom(d, value, wantKept, 0)
  }

  function KeepByValue(d: Dice, value: int): Dice {
    match FindValue(d, value, false)
    case None => d
    case Some(i) => Keep(d, i)
  }

  function UnkeepByValue(d: Dice, value: int): Dice {
    match FindValue(d, value, true)
    case None => d
    case Some(i) => Unkeep(d, i)
  }

  // ------------------------------------------------------ runs until reset

  datatype Op =
    | DoRoll(lockKept: bool, clearKept: bool, faces: seq<int>)
    | DoKeep(index: int)
    | DoUnkeep(index: int)
    | DoToggle(index: int)
    | DoKeepValue(value: int)
    | DoUnkeepValue(value: int)

  predicate Possible(d: Dice, op: Op) {
    op.DoRoll? ==> |op.faces| == d.count && forall f :: f in op.faces ==> 1 <= f <= d.sides
  }

  function Step(d: Dice, op: Op): (r: Dice)
    requires Possible(d, op)
    ensures r.count == d.count && r.sides == d.sides
  {
    match op
    case DoRoll(lockKept, clearKept, faces) => Roll(d, lockKept, clearKept, faces)
    case DoKeep(i) => Keep(d, i)
    case DoUnkeep(i) => Unkeep(d, i)
    case DoToggle(i) => Toggle(d, i)
    case DoKeepValue(v) => KeepByValue(d, v)
    case DoUnkeepValue(v) => UnkeepByValue(d, v)
  }

  /** Operations only ever change values, kept and locked. */
  predicate AllPossible(d: Dice, run: seq<Op>) {
    forall op :: op in run ==> Possible(d, op)
  }

  function After(d: Dice, run: seq<Op>): (r: Dice)
    requires AllPossible(d, run)
    ensures r.count == d.count && r.sides == d.sides
    decreases |run|
  {
    if run == [] then d
    else
      assert run[0] in run && forall op :: op in run[1..] ==> op in run;
      After(Step(d, run[0]), run[1..])
  }

  /** Locked dice are kept, and there are none before the first roll; what is shown is a face. */
  ghost predicate Inv(d: Dice) {
    && d.locked <= d.kept
    && (d.locked != {} ==> d.HasRolled())
    && (d.HasRolled() ==> forall v :: v in d.values ==> 1 <= v <= d.sides)
  }

  /** The first roll shows all the faces and keeps nothing more and nothing less.  Any other rerolls exactly the
      dice that are neither kept nor locked, locks the kept ones if asked to, and forgets what was kept but not
      locked if asked to. */
  lemma RollRerollsOthers(d: Dice, lockKept: bool, clearKept: bool, faces: seq<int>, i: int)
    requires |faces| == d.count
    ensures !d.HasRolled() ==> Roll(d, lockKept, clearKept, faces) == d.(values := faces)
    ensures d.HasRolled() && 0 <= i < d.count ==>
              Roll(d, lockKept, clearKept, faces).Value(i)
              == Some(if i in d.kept + d.locked then d.values[i] else faces[i])
    ensures d.HasRolled() ==>
              var r := Roll(d, lockKept, clearKept, faces);
              && (i in r.locked <==> i in d.locked || (lockKept && i in d.kept))
              && (i in r.kept <==> if clearKept then i in r.locked else i in d.kept)
  {
  }

  /** Keeping, unkeeping and toggling concern one die, and only if it is not locked. */
  lemma KeepsOne(d: Dice, i: int, k: int)
    ensures Keep(d, i) == d.(kept := Keep(d, i).kept) && Unkeep(d, i) == d.(kept := Unkeep(d, i).kept)
    ensures Toggle(d, i) == d.(kept := Toggle(d, i).kept)
    ensures k in Keep(d, i).kept <==> k in d.kept || (k == i && i !in d.locked)
    ensures k in Unkeep(d, i).kept <==> k in d.kept && !(k == i && i !in d.locked)
    ensures k in Toggle(d, i).kept <==> (if k == i && i !in d.locked then k !in d.kept else k in d.kept)
  {
    if i in d.kept && i in d.locked {
      assert Unkeep(d, i) == d;
    }
  }

  /** One operation keeps the invariant, and every locked die locked and showing what it shows. */
  lemma StepHoldsLocked(d: Dice, op: Op, i: int)
    requires Inv(d) && Possible(d, op)
    ensures Inv(Step(d, op))
    ensures i in d.locked ==> i in Step(d, op).locked && i in Step(d, op).kept && Step(d, op).Value(i) == d.Value(i)
  {
    if op.DoRoll? && d.HasRolled() {
      var r := Step(d, op);
      if 0 <= i < d.count {
        RollRerollsOthers(d, op.lockKept, op.clearKept, op.faces, i);
      }
      forall v | v in r.values ensures 1 <= v <= d.sides {
        var k :| 0 <= k < |r.values| && r.values[k] == v;
        assert d.values[k] in d.values && op.faces[k] in op.faces;
      }
    }
  }

  /** From reset on, over any operations and all roll flags: locked dice are kept, and until the next reset
      neither a lock nor a locked die's value changes. */
  lemma {:induction false} LockedStays(d: Dice, before: seq<Op>, after: seq<Op>, i: int)
    requires AllPossible(d, before) && AllPossible(d, after)
    ensures var mid := After(Reset(d), before);
            var end := After(mid, after);
            && mid.locked <= mid.kept
            && (i in mid.locked ==> i in end.locked && i in end.kept && end.Value(i) == mid.Value(i))
            && (i in mid.locked && 0 <= i < d.count ==> mid.Value(i).Some?)
  {
    assert Inv(Reset(d));
    AfterHoldsLocked(Reset(d), before, i);
    AfterHoldsLocked(After(Reset(d), before), after, i);
  }

  lemma {:induction false} AfterHoldsLocked(d: Dice, run: seq<Op>, i: int)
    requires Inv(d) && AllPossible(d, run)
    ensures Inv(After(d, run))
    ensures i in d.locked ==>
              i in After(d, run).locked && i in After(d, run).kept && After(d, run).Value(i) == d.Value(i)
    decreases |run|
  {
    if run == [] {
    } else {
      assert run[0] in run && forall op :: op in run[1..] ==> op in run;
      StepHoldsLocked(d, run[0], i);
      AfterHoldsLocked(Step(d, run[0]), run[1..], i);
    }
  }

  // ------------------------------------------------------------- by value

  lemma {:induction false} FindFinds(d: Dice, value: int, wantKept: bool, from: nat)
    ensures var f := FindFrom(d, value, wantKept, from);
            && (f.Some? ==> from <= f.value < d.count && Suits(d, value, wantKept, f.value))
            && (forall k :: from <= k < d.count && (f.None? || k < f.value) ==> !Suits(d, value, wantKept, k))
    decreases d.count - from
  {
    if from < d.count && !Suits(d, value, wantKept, from) {
      FindFinds(d, value, wantKept, from + 1);
    }
  }

  predicate Suits(d: Dice, value: int, wantKept: bool, i: int) {
    i !in d.locked && d.Value(i) == Some(value) && (i in d.kept <==> wantKept)
  }

  /** The values of the kept dice from an index on. */
  function KeptFrom(d: Dice, i: nat): multiset<int>
    requires d.HasRolled() && i <= d.count
    decreases d.count - i
  {
    if i == d.count then multiset{}
    else (if i in d.kept then multiset{d.values[i]} else multiset{}) + KeptFrom(d, i + 1)
  }

  function KeptValues(d: Dice): multiset<int>
    requires d.HasRolled()
  {
    KeptFrom(d, 0)
  }

  /** Keeping one more die adds its value. */
  lemma {:induction false} KeepingAdds(d: Dice, j: nat, i: nat)
    requires d.HasRolled() && i <= d.count && j < d.count && j !in d.kept
    ensures KeptFrom(d.(kept := d.kept + {j}), i)
         == KeptFrom(d, i) + if i <= j then multiset{d.values[j]} else multiset{}
    decreases d.count - i
  {
    if i < d.count {
      KeepingAdds(d, j, i + 1);
    }
  }

  lemma UnkeepingTakes(d: Dice, j: nat)
    requires d.HasRolled() && j < d.count && j in d.kept
    ensures KeptValues(d) == KeptValues(d.(kept := d.kept - {j})) + multiset{d.values[j]}
  {
    var e := d.(kept := d.kept - {j});
    KeepingAdds(e, j, 0);
    assert e.(kept := e.kept + {j}) == d;
  }

  /** What keeping and unkeeping by value do to the kept values: one more or one less of the value, if a die can
      be found. */
  lemma ByValueCounts(d: Dice, value: int)
    requires d.HasRolled()
    ensures KeptValues(KeepByValue(d, value))
            == KeptValues(d) + if FindValue(d, value, false).Some? then multiset{value} else multiset{}
    ensures FindValue(d, value, true).None? ==> UnkeepByValue(d, value) == d
    ensures FindValue(d, value, true).Some? ==>
              KeptValues(d) == KeptValues(UnkeepByValue(d, value)) + multiset{value}
  {
    FindFinds(d, value, false, 0);
    FindFinds(d, value, true, 0);
    if FindValue(d, value, false).Some? {
      KeepingAdds(d, FindValue(d, value, false).value, 0);
    }
    if FindValue(d, value, true).Some? {
      UnkeepingTakes(d, FindValue(d, value, true).value);
    }
  }

  /** Keeping a value and unkeeping it again restores the values kept exactly if there was a die to keep, or
      none to unkeep. */
  lemma KeepThenUnkeepIff(d: Dice, value: int)
    requires d.HasRolled()
    ensures KeptValues(UnkeepByValue(KeepByValue(d, value), value)) == KeptValues(d)
            <==> FindValue(d, value, false).Some? || FindValue(d, value, true).None?
  {
    hide KeptValues, FindValue;
    var e := KeepByValue(d, value);
    ByValueCounts(d, value);
    ByValueCounts(e, value);
    if FindValue(d, value, false).Some? {
      KeptIsFound(d, value);
      OneEach(KeptValues(UnkeepByValue(e, value)), KeptValues(d), value);
    } else if FindValue(d, value, true).Some? {
      assert KeptValues(d)[value] == KeptValues(UnkeepByValue(d, value))[value] + 1;
    }
  }

  /** Dice on which it does not: the only die that shows the value is kept already, and loses its keep. */
  lemma KeptDieIsLost()
    ensures var d := Dice(1, 6, [3], {0}, {});
            KeptValues(d) == multiset{3} && KeptValues(UnkeepByValue(KeepByValue(d, 3), 3)) == multiset{}
  {
    var d := Dice(1, 6, [3], {0}, {});
    FindFinds(d, 3, false, 0);
    FindFinds(d, 3, true, 0);
    assert Suits(d, 3, true, 0);
    ByValueCounts(d, 3);
    assert KeptFrom(d, 1) == multiset{};
  }

  /** A die just kept by value can be found for unkeeping. */
  lemma KeptIsFound(d: Dice, value: int)
    requires d.HasRolled() && FindValue(d, value, false).Some?
    ensures FindValue(KeepByValue(d, value), value, true).Some?
  {
    var i, e := FindValue(d, value, false).value, KeepByValue(d, value);
    FindFinds(d, value, false, 0);
    FindFinds(e, value, true, 0);
    assert Suits(e, value, true, i);
  }

  lemma OneEach(a: multiset<int>, b: multiset<int>, v: int)
    requires a + multiset{v} == b + multiset{v}
    ensures a == b
  {
    forall x ensures a[x] == b[x] {
      assert (a + multiset{v})[x] == (b + multiset{v})[x];
    }
  }
}
