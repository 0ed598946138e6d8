/** The dice as they are handled (server/game_utils/dice.py, server/game_utils/dice_game_mixin.py). */
module DiceSets {
  import opened Wrappers
  import opened DiceKeeping

  class DiceSet {
    const numDice: nat
    const sides: nat
    var values: seq<int>
    var kept: set<int>
    var locked: set<int>

    function State(): Dice
      reads this
    {
      Dice(numDice, sides, values, kept, locked)
    }

    /** Dice from saved values: whatever does not fit the number of dice and sides is dropped. */
    constructor (numDice: nat, sides: nat, values: seq<int>, kept: set<int>, locked: set<int>)
      ensures this.numDice == numDice && this.sides == sides
      ensures this.values == if |values| == numDice && (forall v :: v in values ==> 1 <= v <= sides) then values else []
      ensures this.kept == (set i | i in kept && 0 <= i < numDice)
              && this.locked == (set i | i in locked && 0 <= i < numDice)
    {
      this.numDice, this.sides := numDice, sides;
      this.values := if |values| == numDice && (forall v :: v in values ==> 1 <= v <= sides) then values else [];
      this.kept := set i | i in kept && 0 <= i < numDice;
      this.locked := set i | i in locked && 0 <= i < numDice;
    }

    method Reset()
      modifies this
      ensures State() == DiceKeeping.Reset(old(State()))
    {
      values, kept, locked := [], {}, {};
    }

    method Roll(lockKept: bool, clearKept: bool, faces: seq<int>) returns (shown: seq<int>)
      requires |faces| == numDice
      modifies this
      ensures State() == DiceKeeping.Roll(old(State()), lockKept, clearKept, faces) && shown == values
    {
      if |values| != numDice {
        values := faces;
      } else {
        if lockKept {
          locked := locked + kept;
        }
        for i := 0 to numDice
          invariant |values| == numDice && kept == old(kept)
          invariant locked == if lockKept then old(locked) + old(kept) else old(locked)
          invariant forall k :: 0 <= k < numDice ==>
                      values[k] == if k >= i || k in locked + kept then old(values)[k] else faces[k]
        {
          if i !in locked && i !in kept {
            values := values[i := faces[i]];
          }
        }
        assert values == Rerolled(old(values), locked + kept, faces);
        if clearKept {
          kept := locked;
        }
      }
      return values;
    }

    method Keep(i: int) returns (done: bool)
      modifies this`kept
      ensures State() == DiceKeeping.Keep(old(State()), i) && (done <==> i !in locked)
    {
      if i in locked {
        return false;
      }
      kept := kept + {i};
      return true;
    }

    method Unkeep(i: int) returns (done: bool)
      modifies this`kept
      ensures State() == DiceKeeping.Unkeep(old(State()), i) && (done <==> i !in locked)
    {
      if i in locked {
        return false;
      }
      kept := kept - {i};
      return true;
    }

    /** Whether the die is kept now; nothing if it is locked. */
    method ToggleKeep(i: int) returns (now: Option<bool>)
      modifies this`kept
      ensures State() == DiceKeeping.Toggle(old(State()), i)
      ensures now == if i in locked then None else Some(i in kept)
    {
      if i in locked {
        return None;
      }
      if i in kept {
        kept := kept - {i};
        return Some(false);
      }
      kept := kept + {i};
      return Some(true);
    }

    /** The die that the check before keeping or unkeeping by value finds. */
    method FindValueDieIndex(value: int, wantKept: bool) returns (found: Option<nat>)
      ensures found == FindValue(State(), value, wantKept)
    {
      if |values| != numDice {
        FindFinds(State(), value, wantKept, 0);
        return None;
      }
      for i := 0 to numDice
        invariant FindValue(State(), value, wantKept) == FindFrom(State(), value, wantKept, i)
      {
        if i in locked {
          continue;
        }
        if State().Value(i) != Some(value) {
          continue;
        }
        if wantKept && i in kept {
          return Some(i);
        }
        if !wantKept && i !in kept {
          return Some(i);
        }
      }
      return None;
    }

    /** Keeps the die the check finds, and no other. */
    method KeepByValue(value: int)
      modifies this`kept
      ensures State() == DiceKeeping.KeepByValue(old(State()), value)
      ensures kept == old(kept) + match FindValue(old(State()), value, false) case Some(i) => {i as int} case None => {}
    {
      FindFinds(State(), value, false, 0);
      for i := 0 to numDice
        invariant kept == old(kept)
        invariant FindValue(State(), value, false) == FindFrom(State(), value, false, i)
      {
        if i !in locked && i !in kept {
          if State().Value(i) == Some(value) {
            var _ := Keep(i);
            return;
          }
        }
      }
    }

    method UnkeepByValue(value: int)
      modifies this`kept
      ensures State() == DiceKeeping.UnkeepByValue(old(State()), value)
      ensures kept == old(kept) - match FindValue(old(State()), value, true) case Some(i) => {i as int} case None => {}
    {
      FindFinds(State(), value, true, 0);
      for i := 0 to numDice
        invariant kept == old(kept)
        invariant FindValue(State(), value, true) == FindFrom(State(), value, true, i)
      {
        if i in kept && i !in locked {
          if State().Value(i) == Some(value) {
            var _ := Unkeep(i);
            return;
          }
        }
      }
    }
  }
}
