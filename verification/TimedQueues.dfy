/**
 Queues of things due at a tick (server/game_utils/game_sound_mixin.py): what is scheduled, when it is
 delivered, and in which order.  A queue carries its history: which passes there were, which items were
 scheduled before which pass, and what was delivered in which.
 */
module TimedQueues {
  datatype Payload =
    | Sound(name: string, volume: int, pan: int, pitch: int)
    | GameEvent(kind: string, data: string)

  /** An item; ids count the items scheduled before it. */
  datatype Item = Item(id: nat, target: int, payload: Payload)

  datatype Request = Request(payload: Payload, delay: int)

  /** An item handed over, and the pass it was handed over in. */
  datatype Delivery = Delivery(item: Item, pass: nat)

  /** `counters` holds the counter of each pass so far, `made` each item ever scheduled, and `born` for each of
      them the number of passes that had begun before. */
  datatype Queue = Queue(
    items: seq<Item>,
    log: seq<Delivery>,
    dropped: set<nat>,
    counters: seq<int>,
    made: seq<Item>,
    born: seq<nat>)

  /** What is done about a delivery, given how many there were before it. */
  type Handler = (nat, Payload) -> seq<Request>

  // ----------------------------------------------------------- operations

  const NONE: Queue := Queue([], [], {}, [], [], [])

  /** The new item a request makes. */
  function NewItem(q: Queue, tick: int, r: Request): Item {
    Item(|q.born|, tick + r.delay, r.payload)
  }

  function Schedule(q: Queue, tick: int, r: Request): Queue {
    var x := NewItem(q, tick, r);
    q.(items := q.items + [x], made := q.made + [x], born := q.born + [|q.counters|])
  }

  function ScheduleAll(q: Queue, tick: int, rs: seq<Request>): Queue
    decreases |rs|
  {
    if rs == [] then q else ScheduleAll(Schedule(q, tick, rs[0]), tick, rs[1..])
  }

  function Clear(q: Queue): Queue {
    q.(items := [], dropped := q.dropped + set x | x in q.items :: x.id)
  }

  /** The items that are not due yet. */
  function Later(items: seq<Item>, tick: int): seq<Item> {
    if items == [] then [] else (if items[0].target <= tick then [] else [items[0]]) + Later(items[1..], tick)
  }

  /** Hands the due items over, in order; the handler may schedule more. */
  function Handle(todo: seq<Item>, q: Queue, tick: int, h: Handler): Queue
    requires q.counters != []
    decreases |todo|
  {
    if todo == [] then q
    else if todo[0].target <= tick then Handle(todo[1..], Deliver(q, todo[0], tick, h), tick, h)
    else Handle(todo[1..], q, tick, h)
  }

  function Deliver(q: Queue, x: Item, tick: int, h: Handler): (r: Queue)
    requires q.counters != []
    ensures r.counters == q.counters
  {
    var logged := q.(log := q.log + [Delivery(x, |q.counters| - 1)]);
    ScheduleAllFacts(logged, tick, h(|q.log|, x.payload));
    ScheduleAll(logged, tick, h(|q.log|, x.payload))
  }

  /** A pass: the queue is swapped for an empty one, what is not due is put back in front of what handlers
      added. */
  function Pass(q: Queue, tick: int, h: Handler): Queue {
    var q1 := Handle(q.items, q.(items := [], counters := q.counters + [tick]), tick, h);
    q1.(items := Later(q.items, tick) + q1.items)
  }

  function NoRequests(): Handler {
    (n, p) => []
  }

  lemma {:induction false} ScheduleAllFacts(q: Queue, tick: int, rs: seq<Request>)
    ensures var r := ScheduleAll(q, tick, rs);
            r.log == q.log && r.dropped == q.dropped && r.counters == q.counters
            && q.items <= r.items && q.born <= r.born && q.made <= r.made
    decreases |rs|
  {
    if rs == [] {
    } else {
      ScheduleAllFacts(Schedule(q, tick, rs[0]), tick, rs[1..]);
    }
  }

  // ------------------------------------------------------------ invariant

  /** Was this item not yet due in the first n passes since it was scheduled? */
  ghost predicate NotDueBefore(q: Queue, x: Item, n: nat)
    requires x.id < |q.born| && n <= |q.counters|
  {
    forall p :: q.born[x.id] <= p < n ==> q.counters[p] < x.target
  }

  ghost predicate Increasing(items: seq<Item>) {
    forall i, j :: 0 <= i < j < |items| ==> items[i].id < items[j].id
  }

  /** Items were scheduled in the order of their ids. */
  ghost predicate BornInOrder(q: Queue) {
    && (forall i, j :: 0 <= i < j < |q.born| ==> q.born[i] <= q.born[j])
    && (forall i :: 0 <= i < |q.born| ==> q.born[i] <= |q.counters|)
  }

  /** Every delivery was made in the first pass, of those begun after the item was scheduled, whose counter had
      reached its target; pass after pass, and within a pass in scheduling order. */
  ghost predicate Prompt(q: Queue) {
    && (forall d :: d in q.log ==>
          && d.item.id < |q.born| && q.born[d.item.id] <= d.pass < |q.counters|
          && q.counters[d.pass] >= d.item.target && NotDueBefore(q, d.item, d.pass))
    && (forall i, j :: 0 <= i < j < |q.log| ==>
          q.log[i].pass < q.log[j].pass || (q.log[i].pass == q.log[j].pass && q.log[i].item.id < q.log[j].item.id))
  }

  /** No item is in two places: waiting, delivered or dropped; and none is delivered twice. */
  ghost predicate Places(q: Queue, waiting: seq<Item>) {
    && |q.made| == |q.born|
    && (forall x :: x in waiting ==> x.id < |q.made| && q.made[x.id] == x && x.id !in q.dropped)
    && (forall d :: d in q.log ==> d.item.id < |q.made| && q.made[d.item.id] == d.item && d.item.id !in q.dropped)
    && (forall id :: id in q.dropped ==> id < |q.born|)
    && (forall i, j :: 0 <= i < j < |q.log| ==> q.log[i].item.id != q.log[j].item.id)
    && (forall x, d :: x in waiting && d in q.log ==> x.id != d.item.id)
  }

  /** Each item ever scheduled is in exactly one place. */
  ghost predicate Accounted(q: Queue, waiting: seq<Item>) {
    && Places(q, waiting)
    && (forall id: nat :: id < |q.born| ==>
          id in q.dropped || (exists x :: x in waiting && x.id == id) || (exists d :: d in q.log && d.item.id == id))
  }

  ghost predicate Valid(q: Queue) {
    && Increasing(q.items) && BornInOrder(q) && Prompt(q) && Accounted(q, q.items)
    && (forall x :: x in q.items ==> NotDueBefore(q, x, |q.counters|))
  }

  /** In a pass: what is held or newly scheduled is not due in it, and what is still to be looked at was not due
      in any earlier one. */
  ghost predicate InStep(q: Queue, held: seq<Item>, todo: seq<Item>)
    requires q.counters != [] && forall x :: x in held + todo + q.items ==> x.id < |q.born|
  {
    && (forall x :: x in held || x in q.items ==> x in held + todo + q.items && NotDueBefore(q, x, |q.counters|))
    && (forall x :: x in todo ==>
          x in held + todo + q.items && NotDueBefore(q, x, |q.counters| - 1) && q.born[x.id] < |q.counters|)
  }

  /** What was delivered in this pass was scheduled before what is still to be looked at. */
  ghost predicate Ahead(q: Queue, todo: seq<Item>) {
    forall d, x :: d in q.log && d.pass == |q.counters| - 1 && x in todo ==> d.item.id < x.id
  }

  /** The invariant in the middle of a pass: `held` was found not due, `todo` is still to be looked at. */
  ghost predicate Mid(q: Queue, held: seq<Item>, todo: seq<Item>, tick: int) {
    && q.counters != [] && q.counters[|q.counters| - 1] == tick
    && Increasing(held + todo + q.items) && BornInOrder(q) && Prompt(q) && Accounted(q, held + todo + q.items)
    && InStep(q, held, todo) && Ahead(q, todo)
  }
}
