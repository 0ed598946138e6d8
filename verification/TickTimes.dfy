/**
 When things scheduled happen while a game ticks (server/game_utils/game_sound_mixin.py): the counter rises by one
 a tick, between the sounds of a tick and its events.
 */
module TickTimes {
  import opened Arithmetic
  import opened TimedQueues
  import opened TimedQueueTheorems

  /** Where in a tick a queue's pass lies: before the counter rises, as for sounds, or after it, as for events. */
  datatype Place = BeforeRise | AfterRise {
    function Shift(): nat {
      if BeforeRise? then 0 else 1
    }
  }

  /** A run of consecutive ticks from a counter on: passes follow the counter, and what is scheduled between them
      reads it. */
  predicate Ticking(run: seq<Timed>, counter: int, place: Place)
    decreases |run|
  {
    run == [] ||
    if run[0].op.DoPass? then run[0].tick == counter + place.Shift() && Ticking(run[1..], counter + 1, place)
    else run[0].tick == counter && Ticking(run[1..], counter, place)
  }

  /** No run takes anything back from the history of a queue. */
  lemma {:induction false} RunHistory(q: Queue, run: seq<Timed>)
    ensures var q' := After(q, run); q.counters <= q'.counters && q.made <= q'.made && q.born <= q'.born
    decreases |run|
  {
    hide Pass;
    if run == [] {
    } else {
      if run[0].op.DoPass? {
        PassHistory(q, run[0].tick, run[0].op.handler);
      }
      RunHistory(Step(q, run[0]), run[1..]);
    }
  }

  /** The passes of consecutive ticks have consecutive counters. */
  lemma {:induction false} TicksCount(q: Queue, run: seq<Timed>, counter: int, place: Place)
    requires Ticking(run, counter, place)
    ensures var q' := After(q, run);
            |q.counters| <= |q'.counters| &&
            forall p :: |q.counters| <= p < |q'.counters| ==>
              q'.counters[p] == counter + place.Shift() + p - |q.counters|
    decreases |run|
  {
    hide Pass;
    if run == [] {
    } else {
      var q1 := Step(q, run[0]);
      if run[0].op.DoPass? {
        PassHistory(q, run[0].tick, run[0].op.handler);
        TicksCount(q1, run[1..], counter + 1, place);
        RunHistory(q1, run[1..]);
      } else {
        TicksCount(q1, run[1..], counter, place);
      }
    }
  }

  lemma {:induction false} AfterSplit(q: Queue, a: seq<Timed>, b: seq<Timed>)
    ensures After(q, a + b) == After(After(q, a), b)
    decreases |a|
  {
    if a == [] {
      assert a + b == b;
    } else {
      assert (a + b)[1..] == a[1..] + b;
      AfterSplit(Step(q, a[0]), a[1..], b);
    }
  }

  /** What is scheduled between ticks is scheduled at the counter then. */
  lemma {:induction false} TickingSplit(q: Queue, a: seq<Timed>, t: Timed, b: seq<Timed>, counter: int, place: Place)
    requires Ticking(a + [t] + b, counter, place) && !t.op.DoPass?
    ensures t.tick == counter + |After(q, a).counters| - |q.counters|
    decreases |a|
  {
    hide Pass;
    if a == [] {
      assert (a + [t] + b)[0] == t;
    } else {
      assert (a + [t] + b)[0] == a[0] && (a + [t] + b)[1..] == a[1..] + [t] + b;
      if a[0].op.DoPass? {
        PassHistory(q, a[0].tick, a[0].op.handler);
        TickingSplit(Step(q, a[0]), a[1..], t, b, counter + 1, place);
      } else {
        TickingSplit(Step(q, a[0]), a[1..], t, b, counter, place);
      }
    }
  }

  /** From an empty queue, over consecutive ticks: an item due `delay` after the counter at which it was
      scheduled is first due in the pass that many ticks later, less the rise before the pass. */
  lemma DueAfterDelay(run: seq<Timed>, counter: int, place: Place, id: nat, delay: int, p: nat)
    requires Ticking(run, counter, place)
    requires var q := After(NONE, run);
             id < |q.born| && id < |q.made| && q.made[id].target == counter + q.born[id] + delay
    ensures var q := After(NONE, run);
            FirstDueIn(q, id, p) <==> p == q.born[id] + Max(0, delay - place.Shift()) && p < |q.counters|
  {
    hide After, Ticking;
    TicksCount(NONE, run, counter, place);
    FirstOfConsecutive(After(NONE, run), counter + place.Shift(), id, delay - place.Shift(), p);
  }

  lemma FirstOfConsecutive(q: Queue, first: int, id: nat, delay: int, p: nat)
    requires id < |q.born| && id < |q.made| && q.made[id].target == first + q.born[id] + delay
    requires forall i :: 0 <= i < |q.counters| ==> q.counters[i] == first + i
    ensures FirstDueIn(q, id, p) <==> p == q.born[id] + Max(0, delay) && p < |q.counters|
  {
    var start := q.born[id] + Max(0, delay);
    forall i: nat ensures DueIn(q, id, i) <==> start <= i < |q.counters| {
    }
    assert start < |q.counters| ==> DueIn(q, id, start);
  }

  /** What is scheduled between two ticks, in the history at the end. */
  lemma ItemStays(before: seq<Timed>, r: Request, after: seq<Timed>, now: int, counter: int, place: Place)
    requires Ticking(before + [Timed(now, DoSchedule(r))] + after, counter, place)
    ensures var q, q' := After(NONE, before), After(NONE, before + [Timed(now, DoSchedule(r))] + after);
            var id := |q.born|;
            && id < |q'.born| && id < |q'.made| && q'.made[id] == NewItem(q, now, r) && q'.born[id] == |q.counters|
            && now == counter + |q.counters|
  {
    hide Ticking, Pass, After, Valid;
    var t := Timed(now, DoSchedule(r));
    var q := After(NONE, before);
    TickingSplit(NONE, before, t, after, counter, place);
    AfterSplit(NONE, before + [t], after);
    AfterSplit(NONE, before, [t]);
    OneStep(q, t);
    NoneIsValid();
    RunKeepsValid(NONE, before);
    ValidSizes(q);
    RunHistory(Schedule(q, now, r), after);
  }

  /** What is scheduled between two ticks of a game and not cleared away is delivered in exactly one pass: the
      one `delay` ticks later, counted from the next pass, less the rise of the counter before it; if the game
      ticks that long. */
  lemma DeliveredAfterDelay(before: seq<Timed>, r: Request, after: seq<Timed>, now: int, counter: int, place: Place)
    requires Ticking(before + [Timed(now, DoSchedule(r))] + after, counter, place)
    requires |After(NONE, before).born| !in After(NONE, before + [Timed(now, DoSchedule(r))] + after).dropped
    ensures var q, q' := After(NONE, before), After(NONE, before + [Timed(now, DoSchedule(r))] + after);
            forall p: nat :: Delivery(NewItem(q, now, r), p) in q'.log <==>
                             p == |q.counters| + Max(0, r.delay - place.Shift()) && p < |q'.counters|
  {
    hide Ticking, After, DueIn, FirstDueIn, Max;
    var run := before + [Timed(now, DoSchedule(r))] + after;
    var q, q' := After(NONE, before), After(NONE, run);
    var x := NewItem(q, now, r);
    ItemStays(before, r, after, now, counter, place);
    DeliveredExactlyOnce(run, |q.born|);
    forall p: nat
      ensures Delivery(x, p) in q'.log <==> p == |q.counters| + Max(0, r.delay - place.Shift()) && p < |q'.counters|
    {
      assert Delivery(q'.made[|q.born|], p) in q'.log <==> FirstDueIn(q', |q.born|, p);
      DueAfterDelay(run, counter, place, |q.born|, r.delay, p);
    }
  }

  lemma OneStep(q: Queue, t: Timed)
    ensures After(q, [t]) == Step(q, t)
  {
    assert [t][1..] == [];
  }

  lemma ValidSizes(q: Queue)
    requires Valid(q)
    ensures |q.made| == |q.born|
  {
  }

  /** A sound with a delay of d ticks is played in the (d + 1)-th tick from now. */
  lemma SoundsPlayOnTime(before: seq<Timed>, r: Request, after: seq<Timed>, now: int, counter: int)
    requires Ticking(before + [Timed(now, DoSchedule(r))] + after, counter, BeforeRise) && r.delay >= 0
    requires |After(NONE, before).born| !in After(NONE, before + [Timed(now, DoSchedule(r))] + after).dropped
    ensures var q, q' := After(NONE, before), After(NONE, before + [Timed(now, DoSchedule(r))] + after);
            forall p: nat :: Delivery(NewItem(q, now, r), p) in q'.log <==>
                             p + 1 == |q.counters| + (r.delay + 1) && p < |q'.counters|
  {
    hide Ticking, After;
    DeliveredAfterDelay(before, r, after, now, counter, BeforeRise);
  }

  /** An event scheduled between ticks with a delay of d is handled in the d-th tick from now, or in the next one
      if d is not positive. */
  lemma EventsComeOnTime(before: seq<Timed>, r: Request, after: seq<Timed>, now: int, counter: int)
    requires Ticking(before + [Timed(now, DoSchedule(r))] + after, counter, AfterRise)
    requires |After(NONE, before).born| !in After(NONE, before + [Timed(now, DoSchedule(r))] + after).dropped
    ensures var q, q' := After(NONE, before), After(NONE, before + [Timed(now, DoSchedule(r))] + after);
            forall p: nat :: Delivery(NewItem(q, now, r), p) in q'.log <==>
                             p + 1 == |q.counters| + Max(1, r.delay) && p < |q'.counters|
  {
    hide Ticking, After;
    DeliveredAfterDelay(before, r, after, now, counter, AfterRise);
  }
}
