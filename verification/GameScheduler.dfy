/**
 Scheduled sounds and game events as they run (server/game_utils/game_sound_mixin.py): lists of due times that
 are gone through at every tick.  What a game does about an event is any function of the event and of how many
 there were before it.
 */
module GameScheduler {
  import opened TimedQueues
  import opened TimedQueueTheorems

  /** An entry of one of the lists: when it is due, and what it is. */
  datatype Entry = Entry(target: int, payload: Payload)

  /** What a game does about an event: events and sounds it schedules. */
  datatype Reaction = Reaction(events: seq<Request>, sounds: seq<Request>)

  type Game = (nat, Payload) -> Reaction

  function EventsOf(game: Game): Handler {
    (n: nat, p: Payload) => game(n, p).events
  }

  /** The sounds a game schedules while the due events are handed to it. */
  function SoundsAsked(todo: seq<Item>, n: nat, tick: int, game: Game): seq<Request> {
    if todo == [] then []
    else if todo[0].target <= tick then game(n, todo[0].payload).sounds + SoundsAsked(todo[1..], n + 1, tick, game)
    else SoundsAsked(todo[1..], n, tick, game)
  }

  ghost predicate Shows(entries: seq<Entry>, items: seq<Item>) {
    |entries| == |items| && forall i :: 0 <= i < |items| ==> entries[i] == Entry(items[i].target, items[i].payload)
  }

  ghost predicate Traces(trace: seq<Payload>, log: seq<Delivery>) {
    |trace| == |log| && forall i :: 0 <= i < |log| ==> trace[i] == log[i].item.payload
  }

  lemma {:induction false} SchedulingInTwo(q: Queue, tick: int, a: seq<Request>, b: seq<Request>)
    ensures ScheduleAll(q, tick, a + b) == ScheduleAll(ScheduleAll(q, tick, a), tick, b)
    decreases |a|
  {
    if a == [] {
      assert a + b == b;
    } else {
      assert (a + b)[1..] == a[1..] + b;
      SchedulingInTwo(Schedule(q, tick, a[0]), tick, a[1..], b);
    }
  }

  /** One more entry of a pass. */
  lemma HandleFrom(todo: seq<Item>, i: nat, q: Queue, tick: int, h: Handler)
    requires i < |todo| && q.counters != []
    ensures Handle(todo[i..], q, tick, h)
            == Handle(todo[i + 1..], if todo[i].target <= tick then Deliver(q, todo[i], tick, h) else q, tick, h)
    ensures Later(todo[i..], tick) == (if todo[i].target <= tick then [] else [todo[i]]) + Later(todo[i + 1..], tick)
  {
    assert todo[i..][1..] == todo[i + 1..];
  }

  lemma AskedFrom(todo: seq<Item>, i: nat, n: nat, q: Queue, tick: int, game: Game)
    requires i < |todo|
    ensures var asked := if todo[i].target <= tick then game(n, todo[i].payload).sounds else [];
            ScheduleAll(q, tick, SoundsAsked(todo[i..], n, tick, game))
            == ScheduleAll(ScheduleAll(q, tick, asked), tick,
                           SoundsAsked(todo[i + 1..], if todo[i].target <= tick then n + 1 else n, tick, game))
  {
    assert todo[i..][1..] == todo[i + 1..];
    if todo[i].target <= tick {
      SchedulingInTwo(q, tick, game(n, todo[i].payload).sounds, SoundsAsked(todo[i + 1..], n + 1, tick, game));
    }
  }

  /** A pass under way: what is left to look at from place i on completes it. */
  ghost predicate UnderWay(todo: seq<Item>, i: nat, begun: Queue, q: Queue, later: seq<Item>, tick: int, h: Handler) {
    && i <= |todo| && begun.counters != [] && q.counters == begun.counters
    && Handle(todo, begun, tick, h) == Handle(todo[i..], q, tick, h)
    && Later(todo, tick) == later + Later(todo[i..], tick)
  }

  lemma PassStarts(todo: seq<Item>, begun: Queue, tick: int, h: Handler)
    requires begun.counters != []
    ensures UnderWay(todo, 0, begun, begun, [], tick, h)
  {
    assert todo[0..] == todo;
  }

  lemma PassGoesOn(todo: seq<Item>, i: nat, begun: Queue, q: Queue, later: seq<Item>, tick: int, h: Handler)
    requires i < |todo| && UnderWay(todo, i, begun, q, later, tick, h)
    ensures q.counters != []
    ensures todo[i].target <= tick ==> UnderWay(todo, i + 1, begun, Deliver(q, todo[i], tick, h), later, tick, h)
    ensures todo[i].target > tick ==> UnderWay(todo, i + 1, begun, q, later + [todo[i]], tick, h)
  {
    hide Handle, Later, Deliver;
    HandleFrom(todo, i, q, tick, h);
  }

  lemma PassIsOver(todo: seq<Item>, begun: Queue, q: Queue, later: seq<Item>, tick: int, h: Handler)
    requires UnderWay(todo, |todo|, begun, q, later, tick, h)
    ensures begun.counters != [] && q == Handle(todo, begun, tick, h) && later == Later(todo, tick)
  {
  }

  /** The sounds asked for so far, and what the rest of a pass will still ask for. */
  ghost predicate Asks(todo: seq<Item>, i: nat, n0: nat, n: nat, begun: Queue, sounds: Queue, tick: int, game: Game) {
    && i <= |todo|
    && ScheduleAll(begun, tick, SoundsAsked(todo, n0, tick, game))
       == ScheduleAll(sounds, tick, SoundsAsked(todo[i..], n, tick, game))
  }

  lemma AskingStarts(todo: seq<Item>, n: nat, sounds: Queue, tick: int, game: Game)
    ensures Asks(todo, 0, n, n, sounds, sounds, tick, game)
  {
    assert todo[0..] == todo;
  }

  lemma AskingGoesOn(todo: seq<Item>, i: nat, n0: nat, n: nat, begun: Queue, sounds: Queue, tick: int, game: Game)
    requires i < |todo| && Asks(todo, i, n0, n, begun, sounds, tick, game)
    ensures todo[i].target <= tick ==>
              Asks(todo, i + 1, n0, n + 1, begun, ScheduleAll(sounds, tick, game(n, todo[i].payload).sounds),
                   tick, game)
    ensures todo[i].target > tick ==> Asks(todo, i + 1, n0, n, begun, sounds, tick, game)
  {
    hide ScheduleAll, SoundsAsked;
    AskedFrom(todo, i, n, sounds, tick, game);
    AskedNothing(sounds, tick);
  }

  lemma AskingIsOver(todo: seq<Item>, n0: nat, n: nat, begun: Queue, sounds: Queue, tick: int, game: Game)
    requires Asks(todo, |todo|, n0, n, begun, sounds, tick, game)
    ensures sounds == ScheduleAll(begun, tick, SoundsAsked(todo, n0, tick, game))
  {
  }

  /** The sounds a game asks for in the deliveries of a pass, from a place of the log on. */
  function SoundsOf(log: seq<Delivery>, from: nat, game: Game): seq<Request>
    requires from <= |log|
    decreases |log| - from
  {
    if from == |log| then [] else game(from, log[from].item.payload).sounds + SoundsOf(log, from + 1, game)
  }

  /** What is asked of the sounds' queue in a pass is what the game asks for with each delivery, in order. */
  lemma {:induction false} SoundsAskedIs(todo: seq<Item>, q: Queue, tick: int, game: Game)
    requires q.counters != []
    ensures var log := Handle(todo, q, tick, EventsOf(game)).log;
            |q.log| <= |log| && SoundsAsked(todo, |q.log|, tick, game) == SoundsOf(log, |q.log|, game)
    decreases |todo|
  {
    var h := EventsOf(game);
    HandleHistory(todo, q, tick, h);
    if todo == [] {
    } else if todo[0].target <= tick {
      var q1 := Deliver(q, todo[0], tick, h);
      ScheduleHistory(Logged(q, todo[0]), tick, h(|q.log|, todo[0].payload));
      HandleHistory(todo[1..], q1, tick, h);
      SoundsAskedIs(todo[1..], q1, tick, game);
      assert Handle(todo, q, tick, h).log[|q.log|] == q1.log[|q.log|];
    } else {
      SoundsAskedIs(todo[1..], q, tick, game);
    }
  }

  /** In a pass of a game exactly the events it asks for, with each delivery, are scheduled at the tick; and its
      sounds are asked for with the same deliveries. */
  lemma GamePassSchedules(q: Queue, tick: int, game: Game)
    ensures var q' := Pass(q, tick, EventsOf(game));
            && |q.log| <= |q'.log|
            && Adds(q, q', tick, EventsIn(q'.log, |q.log|, game))
            && SoundsAsked(q.items, |q.log|, tick, game) == SoundsOf(q'.log, |q.log|, game)
  {
    PassSchedulesAsked(q, tick, EventsOf(game));
    SoundsAskedIs(q.items, q.(items := [], counters := q.counters + [tick]), tick, game);
    EventsAreAsked(Pass(q, tick, EventsOf(game)).log, |q.log|, game);
    hide Handle, Adds;
  }

  function EventsIn(log: seq<Delivery>, from: nat, game: Game): seq<Request>
    requires from <= |log|
    decreases |log| - from
  {
    if from == |log| then [] else game(from, log[from].item.payload).events + EventsIn(log, from + 1, game)
  }

  lemma {:induction false} EventsAreAsked(log: seq<Delivery>, from: nat, game: Game)
    requires from <= |log|
    ensures Asked(log, from, EventsOf(game)) == EventsIn(log, from, game)
    decreases |log| - from
  {
    if from == |log| {
    } else {
      EventsAreAsked(log, from + 1, game);
    }
  }

  lemma AskedNothing(q: Queue, tick: int)
    ensures ScheduleAll(q, tick, []) == q
  {
  }

  class Scheduler {
    var soundSchedulerTick: int
    var scheduledSounds: seq<Entry>
    var eventQueue: seq<Entry>
    // What was played and what was handed to the game, in order.
    var played: seq<Payload>
    var handled: seq<Payload>
    // The histories the lists stand for.
    ghost var sounds: Queue
    ghost var events: Queue

    ghost predicate Consistent()
      reads this
    {
      && Shows(scheduledSounds, sounds.items) && Traces(played, sounds.log)
      && Shows(eventQueue, events.items) && Traces(handled, events.log)
    }

    constructor ()
      ensures Consistent() && sounds == NONE && events == NONE && soundSchedulerTick == 0
    {
      soundSchedulerTick, scheduledSounds, eventQueue, played, handled := 0, [], [], [], [];
      sounds, events := NONE, NONE;
    }

    method ScheduleSound(r: Request)
      requires Consistent()
      modifies this`scheduledSounds, this`sounds
      ensures Consistent() && sounds == Schedule(old(sounds), soundSchedulerTick, r)
    {
      scheduledSounds := scheduledSounds + [Entry(soundSchedulerTick + r.delay, r.payload)];
      sounds := Schedule(sounds, soundSchedulerTick, r);
    }

    method ScheduleSounds(rs: seq<Request>)
      requires Consistent()
      modifies this`scheduledSounds, this`sounds
      ensures Consistent() && sounds == ScheduleAll(old(sounds), soundSchedulerTick, rs)
    {
      for i := 0 to |rs|
        invariant Consistent()
        invariant ScheduleAll(sounds, soundSchedulerTick, rs[i..]) == ScheduleAll(old(sounds), soundSchedulerTick, rs)
      {
        assert rs[i..][1..] == rs[i + 1..];
        ScheduleSound(rs[i]);
      }
    }

    method ClearScheduledSounds()
      requires Consistent()
      modifies this`scheduledSounds, this`sounds
      ensures Consistent() && sounds == Clear(old(sounds))
    {
      scheduledSounds := [];
      sounds := Clear(sounds);
    }

    method ScheduleEvent(r: Request)
      requires Consistent()
      modifies this`eventQueue, this`events
      ensures Consistent() && events == Schedule(old(events), soundSchedulerTick, r)
    {
      eventQueue := eventQueue + [Entry(soundSchedulerTick + r.delay, r.payload)];
      events := Schedule(events, soundSchedulerTick, r);
    }

    method ScheduleEvents(rs: seq<Request>)
      requires Consistent()
      modifies this`eventQueue, this`events
      ensures Consistent() && events == ScheduleAll(old(events), soundSchedulerTick, rs)
    {
      for i := 0 to |rs|
        invariant Consistent()
        invariant ScheduleAll(events, soundSchedulerTick, rs[i..]) == ScheduleAll(old(events), soundSchedulerTick, rs)
      {
        assert rs[i..][1..] == rs[i + 1..];
        ScheduleEvent(rs[i]);
      }
    }

    method PlaySound(entry: Entry, ghost x: Item)
      requires Traces(played, sounds.log) && sounds.counters != [] && entry == Entry(x.target, x.payload)
      modifies this`played, this`sounds
      ensures Traces(played, sounds.log) && sounds == Deliver(old(sounds), x, soundSchedulerTick, NoRequests())
      ensures sounds.counters == old(sounds).counters && sounds.items == old(sounds).items
    {
      played := played + [entry.payload];
      sounds := Deliver(sounds, x, soundSchedulerTick, NoRequests());
    }

    method ProcessScheduledSounds()
      requires Consistent()
      modifies this`scheduledSounds, this`played, this`sounds, this`soundSchedulerTick
      ensures Consistent() && soundSchedulerTick == old(soundSchedulerTick) + 1
      ensures sounds == Pass(old(sounds), old(soundSchedulerTick), NoRequests())
    {
      hide Handle, Later, Deliver, NoRequests, UnderWay;
      var remaining: seq<Entry> := [];
      ghost var todo, tick, h := sounds.items, soundSchedulerTick, NoRequests();
      ghost var later: seq<Item> := [];
      sounds := sounds.(items := [], counters := sounds.counters + [tick]);
      ghost var begun := sounds;
      PassStarts(todo, begun, tick, h);
      for i := 0 to |scheduledSounds|
        invariant Shows(scheduledSounds, todo) && Shows(remaining, later) && Traces(played, sounds.log)
        invariant soundSchedulerTick == tick && sounds.items == [] && UnderWay(todo, i, begun, sounds, later, tick, h)
      {
        PassGoesOn(todo, i, begun, sounds, later, tick, h);
        if scheduledSounds[i].target <= soundSchedulerTick {
          PlaySound(scheduledSounds[i], todo[i]);
        } else {
          remaining := remaining + [scheduledSounds[i]];
          later := later + [todo[i]];
        }
      }
      PassIsOver(todo, begun, sounds, later, tick, h);
      scheduledSounds := remaining;
      sounds := sounds.(items := later);
      soundSchedulerTick := soundSchedulerTick + 1;
    }

    /** Hands one event to the game, and schedules what the game asks for. */
    method HandleEvent(entry: Entry, game: Game, ghost x: Item)
      requires Consistent() && events.counters != [] && entry == Entry(x.target, x.payload)
      modifies this`eventQueue, this`handled, this`events, this`scheduledSounds, this`sounds
      ensures Consistent() && events == Deliver(old(events), x, soundSchedulerTick, EventsOf(game))
      ensures |events.log| == |old(events).log| + 1
      ensures sounds == ScheduleAll(old(sounds), soundSchedulerTick, game(|old(events).log|, x.payload).sounds)
    {
      var reaction := game(|handled|, entry.payload);
      ScheduleAllFacts(Logged(events, x), soundSchedulerTick, reaction.events);
      handled := handled + [entry.payload];
      events := Logged(events, x);
      ScheduleEvents(reaction.events);
      ScheduleSounds(reaction.sounds);
    }

    /** The queue is swapped, so that what the game schedules while it handles an event is kept for later. */
    method ProcessScheduledEvents(game: Game)
      requires Consistent()
      modifies this`eventQueue, this`handled, this`events, this`scheduledSounds, this`sounds
      ensures Consistent()
      ensures events == Pass(old(events), soundSchedulerTick, EventsOf(game))
      ensures sounds == ScheduleAll(old(sounds), soundSchedulerTick,
                                    SoundsAsked(old(events).items, |old(events).log|, soundSchedulerTick, game))
    {
      hide Handle, Later, Deliver, EventsOf, ScheduleAll, SoundsAsked, UnderWay, Asks;
      ghost var todo, tick, h := events.items, soundSchedulerTick, EventsOf(game);
      ghost var later: seq<Item> := [];
      events := events.(items := [], counters := events.counters + [tick]);
      ghost var begun, n0 := events, |events.log|;
      PassStarts(todo, begun, tick, h);
      AskingStarts(todo, n0, sounds, tick, game);
      if eventQueue == [] {
        PassIsOver(todo, begun, events, later, tick, h);
        AskingIsOver(todo, n0, n0, sounds, sounds, tick, game);
        return;
      }
      var toProcess := eventQueue;
      eventQueue := [];
      var remaining: seq<Entry> := [];
      for i := 0 to |toProcess|
        invariant Consistent() && Shows(toProcess, todo) && Shows(remaining, later)
        invariant UnderWay(todo, i, begun, events, later, tick, h)
        invariant Asks(todo, i, n0, |events.log|, old(sounds), sounds, tick, game)
      {
        PassGoesOn(todo, i, begun, events, later, tick, h);
        AskingGoesOn(todo, i, n0, |events.log|, old(sounds), sounds, tick, game);
        if toProcess[i].target <= soundSchedulerTick {
          HandleEvent(toProcess[i], game, todo[i]);
        } else {
          remaining := remaining + [toProcess[i]];
          later := later + [todo[i]];
        }
      }
      PassIsOver(todo, begun, events, later, tick, h);
      AskingIsOver(todo, n0, |events.log|, old(sounds), sounds, tick, game);
      eventQueue := remaining + eventQueue;
      events := events.(items := later + events.items);
    }

    /** One tick of a game: sounds first, then events. */
    method OnTick(game: Game)
      requires Consistent() && Valid(sounds) && Valid(events)
      modifies this
      ensures Consistent() && Valid(sounds) && Valid(events) && soundSchedulerTick == old(soundSchedulerTick) + 1
      ensures events == Pass(old(events), old(soundSchedulerTick) + 1, EventsOf(game))
      ensures sounds == ScheduleAll(Pass(old(sounds), old(soundSchedulerTick), NoRequests()), soundSchedulerTick,
                                    SoundsAsked(old(events).items, |old(events).log|, soundSchedulerTick, game))
    {
      hide Valid, Pass, SoundsAsked, EventsOf, NoRequests, ScheduleAll;
      PassKeepsValid(sounds, soundSchedulerTick, NoRequests());
      ProcessScheduledSounds();
      PassKeepsValid(events, soundSchedulerTick, EventsOf(game));
      SchedulingAllKeepsValid(sounds, soundSchedulerTick,
                              SoundsAsked(events.items, |events.log|, soundSchedulerTick, game));
      ProcessScheduledEvents(game);
    }
  }

  lemma {:induction false} SchedulingAllKeepsValid(q: Queue, tick: int, rs: seq<Request>)
    requires Valid(q)
    ensures Valid(ScheduleAll(q, tick, rs))
    decreases |rs|
  {
    if rs == [] {
    } else {
      SchedulingKeepsValid(q, tick, rs[0]);
      SchedulingAllKeepsValid(Schedule(q, tick, rs[0]), tick, rs[1..]);
    }
  }
}
