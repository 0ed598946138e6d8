/** Every item is delivered exactly once, in the first pass that reaches its target, in scheduling order. */
module TimedQueueTheorems {
  import opened TimedQueues

  // ------------------------------------------------------------ scheduling

  lemma SchedulingKeepsWaiting(q: Queue, waiting: seq<Item>, tick: int, r: Request)
    requires Accounted(q, waiting) && Increasing(waiting)
    ensures Accounted(Schedule(q, tick, r), waiting + [NewItem(q, tick, r)])
    ensures Increasing(waiting + [NewItem(q, tick, r)])
  {
    var q', x := Schedule(q, tick, r), NewItem(q, tick, r);
    var waiting' := waiting + [x];
    forall i, j | 0 <= i < j < |waiting'| ensures waiting'[i].id < waiting'[j].id {
      if j == |waiting| {
        assert waiting[i] in waiting;
      }
    }
    assert forall y :: y in waiting' <==> y in waiting || y == x;
  }

  lemma SchedulingKeepsPrompt(q: Queue, tick: int, r: Request)
    requires BornInOrder(q) && Prompt(q)
    ensures BornInOrder(Schedule(q, tick, r)) && Prompt(Schedule(q, tick, r))
  {
    forall x: Item, n: nat | x.id < |q.born| && n <= |q.counters|
      ensures NotDueBefore(Schedule(q, tick, r), x, n) <==> NotDueBefore(q, x, n)
    {
    }
  }

  lemma SchedulingKeepsNotDue(q: Queue, tick: int, r: Request, x: Item, n: nat)
    requires x.id < |q.born| && n <= |q.counters|
    ensures NotDueBefore(Schedule(q, tick, r), x, n) <==> NotDueBefore(q, x, n)
  {
  }

  lemma SchedulingKeepsValid(q: Queue, tick: int, r: Request)
    requires Valid(q)
    ensures Valid(Schedule(q, tick, r))
  {
    SchedulingKeepsWaiting(q, q.items, tick, r);
    SchedulingKeepsPrompt(q, tick, r);
    var q' := Schedule(q, tick, r);
    forall x | x in q'.items ensures x.id < |q'.born| && NotDueBefore(q', x, |q'.counters|) {
      if x in q.items {
        SchedulingKeepsNotDue(q, tick, r, x, |q.counters|);
      }
    }
  }

  lemma SchedulingKeepsMid(q: Queue, held: seq<Item>, todo: seq<Item>, tick: int, r: Request)
    requires Mid(q, held, todo, tick)
    ensures Mid(Schedule(q, tick, r), held, todo, tick)
  {
    hide Prompt, BornInOrder;
    var q', y := Schedule(q, tick, r), NewItem(q, tick, r);
    assert held + todo + q'.items == held + todo + q.items + [y];
    SchedulingKeepsWaiting(q, held + todo + q.items, tick, r);
    SchedulingKeepsPrompt(q, tick, r);
    forall x | x in held || x in q'.items ensures x.id < |q'.born| && NotDueBefore(q', x, |q'.counters|) {
      if x != y {
        assert x in held + todo + q.items;
        SchedulingKeepsNotDue(q, tick, r, x, |q.counters|);
      } else {
        assert q'.born[x.id] == |q.counters|;
      }
    }
    forall x | x in todo
      ensures x.id < |q'.born| && NotDueBefore(q', x, |q'.counters| - 1) && q'.born[x.id] < |q'.counters|
    {
      assert x in held + todo + q.items;
      SchedulingKeepsNotDue(q, tick, r, x, |q.counters| - 1);
    }
  }

  lemma {:induction false} SchedulingAllKeepsMid(q: Queue, held: seq<Item>, todo: seq<Item>, tick: int,
                                                 rs: seq<Request>)
    requires Mid(q, held, todo, tick)
    ensures Mid(ScheduleAll(q, tick, rs), held, todo, tick)
    decreases |rs|
  {
    if rs == [] {
    } else {
      SchedulingKeepsMid(q, held, todo, tick, rs[0]);
      SchedulingAllKeepsMid(Schedule(q, tick, rs[0]), held, todo, tick, rs[1..]);
    }
  }

  /** Clearing drops what waits and nothing else. */
  lemma ClearingKeepsValid(q: Queue)
    requires Valid(q)
    ensures Valid(Clear(q)) && Clear(q) == q.(items := [], dropped := Clear(q).dropped)
    ensures forall id: nat :: id < |q.born| ==> (id in Clear(q).dropped <==> !exists d :: d in q.log && d.item.id == id)
  {
    var q' := Clear(q);
    forall id: nat | id < |q'.born|
      ensures id in q'.dropped || (exists d :: d in q'.log && d.item.id == id)
    {
      if exists x :: x in q.items && x.id == id {
        var x :| x in q.items && x.id == id;
        assert x.id in q'.dropped;
      }
    }
    forall d | d in q'.log ensures NotDueBefore(q', d.item, d.pass) {
      assert NotDueBefore(q, d.item, d.pass);
    }
  }

  // ---------------------------------------------------------------- a pass

  lemma PassBegins(q: Queue, tick: int)
    requires Valid(q)
    ensures Mid(q.(items := [], counters := q.counters + [tick]), [], q.items, tick)
  {
    var q' := q.(items := [], counters := q.counters + [tick]);
    assert [] + q.items + q'.items == q.items;
    forall d | d in q'.log ensures NotDueBefore(q', d.item, d.pass) {
      assert NotDueBefore(q, d.item, d.pass);
    }
    forall x | x in q.items ensures NotDueBefore(q', x, |q'.counters| - 1) {
      assert NotDueBefore(q, x, |q.counters|);
    }
  }

  lemma HoldingKeepsMid(q: Queue, held: seq<Item>, todo: seq<Item>, tick: int)
    requires Mid(q, held, todo, tick) && todo != [] && todo[0].target > tick
    ensures Mid(q, held + [todo[0]], todo[1..], tick)
  {
    assert held + [todo[0]] + todo[1..] + q.items == held + todo + q.items;
    assert NotDueBefore(q, todo[0], |q.counters| - 1);
  }

  /** The queue with a due item moved to the log. */
  function Logged(q: Queue, x: Item): Queue
    requires q.counters != []
  {
    q.(log := q.log + [Delivery(x, |q.counters| - 1)])
  }

  /** Taking one item out of an ordered sequence. */
  lemma TakenOut(before: seq<Item>, x: Item, after: seq<Item>)
    requires Increasing(before + [x] + after)
    ensures Increasing(before + after)
    ensures forall y :: y in before + after <==> y in before + [x] + after && y.id != x.id
    ensures forall y :: y in before + [x] + after <==> y in before + after || y == x
    ensures forall y :: y in after ==> x.id < y.id
  {
    var all, rest := before + [x] + after, before + after;
    assert all[|before|] == x;
    forall i, j | 0 <= i < j < |rest| ensures rest[i].id < rest[j].id {
      var i', j' := if i < |before| then i else i + 1, if j < |before| then j else j + 1;
      assert rest[i] == all[i'] && rest[j] == all[j'];
    }
    forall y | y in rest ensures y in all && y.id != x.id {
      var i :| 0 <= i < |rest| && rest[i] == y;
      assert all[if i < |before| then i else i + 1] == y;
    }
    forall y | y in after ensures x.id < y.id {
      var i :| 0 <= i < |after| && after[i] == y;
      assert all[|before| + 1 + i] == y;
    }
  }

  lemma LoggingKeepsAccounts(q: Queue, all: seq<Item>, x: Item, rest: seq<Item>)
    requires q.counters != [] && Accounted(q, all) && x in all
    requires forall y :: y in rest <==> y in all && y.id != x.id
    requires forall y :: y in all <==> y in rest || y == x
    ensures Accounted(Logged(q, x), rest)
  {
    LoggingKeepsPlaces(q, all, x, rest);
    hide Places;
    var q' := Logged(q, x);
    assert Delivery(x, |q.counters| - 1) in q'.log;
    assert forall d :: d in q.log ==> d in q'.log;
    forall id: nat | id < |q'.born|
      ensures id in q'.dropped || (exists y :: y in rest && y.id == id) || (exists d :: d in q'.log && d.item.id == id)
    {
      if y :| y in all && y.id == id {
        assert y in rest || Delivery(x, |q.counters| - 1).item.id == id;
      }
    }
  }

  lemma LoggingKeepsPlaces(q: Queue, all: seq<Item>, x: Item, rest: seq<Item>)
    requires q.counters != [] && Places(q, all) && x in all
    requires forall y :: y in rest <==> y in all && y.id != x.id
    ensures Places(Logged(q, x), rest)
  {
    var q' := Logged(q, x);
    assert forall d :: d in q'.log <==> d in q.log || d == Delivery(x, |q.counters| - 1);
    forall i, j | 0 <= i < j < |q'.log| ensures q'.log[i].item.id != q'.log[j].item.id {
      assert q'.log[i] in q.log;
    }
  }

  lemma LoggingKeepsPrompt(q: Queue, held: seq<Item>, todo: seq<Item>, tick: int)
    requires Mid(q, held, todo, tick) && todo != [] && todo[0].target <= tick
    ensures Prompt(Logged(q, todo[0])) && BornInOrder(Logged(q, todo[0]))
  {
    hide Accounted, Increasing;
    WaitingIsScheduled(q, held + todo + q.items);
    var q' := Logged(q, todo[0]);
    assert todo[0] in todo && todo[0] in held + todo + q.items;
    forall d | d in q'.log
      ensures d.item.id < |q'.born| && q'.born[d.item.id] <= d.pass < |q'.counters|
      ensures q'.counters[d.pass] >= d.item.target && NotDueBefore(q', d.item, d.pass)
    {
      if d in q.log {
        assert NotDueBefore(q, d.item, d.pass);
      } else {
        assert NotDueBefore(q, todo[0], |q.counters| - 1);
      }
    }
    forall i, j | 0 <= i < j < |q'.log|
      ensures q'.log[i].pass < q'.log[j].pass
              || (q'.log[i].pass == q'.log[j].pass && q'.log[i].item.id < q'.log[j].item.id)
    {
      if j == |q.log| {
        assert q.log[i] in q.log;
      }
    }
  }

  lemma LoggingKeepsMid(q: Queue, held: seq<Item>, todo: seq<Item>, tick: int)
    requires Mid(q, held, todo, tick) && todo != [] && todo[0].target <= tick
    ensures Mid(Logged(q, todo[0]), held, todo[1..], tick)
  {
    hide Prompt, BornInOrder, NotDueBefore, InStep, Ahead, Accounted;
    var q', x, after := Logged(q, todo[0]), todo[0], todo[1..] + q.items;
    var all, rest := held + todo + q.items, held + todo[1..] + q.items;
    assert all == held + [x] + after && rest == held + after;
    TakenOut(held, x, after);
    WaitingIsScheduled(q, all);
    assert x in all;
    LoggingKeepsAccounts(q, all, x, rest);
    LoggingKeepsPrompt(q, held, todo, tick);
    WaitingIsScheduled(q', rest);
    LoggingKeepsStep(q, held, todo);
    LoggingKeepsAhead(q, todo, all, after);
  }

  lemma WaitingIsScheduled(q: Queue, waiting: seq<Item>)
    requires Accounted(q, waiting)
    ensures forall y :: y in waiting ==> y.id < |q.born|
  {
  }

  lemma LoggingKeepsStep(q: Queue, held: seq<Item>, todo: seq<Item>)
    requires q.counters != [] && todo != [] && forall y :: y in held + todo + q.items ==> y.id < |q.born|
    requires InStep(q, held, todo)
    requires forall y :: y in held + todo[1..] + q.items ==> y.id < |q.born|
    ensures InStep(Logged(q, todo[0]), held, todo[1..])
  {
    forall y: Item, n: nat | y.id < |q.born| && n <= |q.counters|
      ensures NotDueBefore(Logged(q, todo[0]), y, n) <==> NotDueBefore(q, y, n)
    {
    }
    hide NotDueBefore;
  }

  lemma LoggingKeepsAhead(q: Queue, todo: seq<Item>, all: seq<Item>, after: seq<Item>)
    requires q.counters != [] && todo != [] && Ahead(q, todo)
    requires after == todo[1..] + q.items && forall y :: y in after ==> todo[0].id < y.id
    ensures Ahead(Logged(q, todo[0]), todo[1..])
  {
    forall y | y in todo[1..] ensures y in todo && y in after {
    }
  }

  lemma MidHasPass(q: Queue, held: seq<Item>, todo: seq<Item>, tick: int)
    requires Mid(q, held, todo, tick)
    ensures q.counters != []
  {
  }

  /** Handling everything that is still to be looked at. */
  lemma {:induction false} HandlingKeepsMid(q: Queue, held: seq<Item>, todo: seq<Item>, tick: int, h: Handler)
    requires Mid(q, held, todo, tick)
    ensures Mid(Handle(todo, q, tick, h), held + Later(todo, tick), [], tick)
    decreases |todo|
  {
    hide Mid;
    MidHasPass(q, held, todo, tick);
    if todo == [] {
      assert held + Later(todo, tick) == held;
    } else if todo[0].target <= tick {
      LoggingKeepsMid(q, held, todo, tick);
      SchedulingAllKeepsMid(Logged(q, todo[0]), held, todo[1..], tick, h(|q.log|, todo[0].payload));
      HandlingKeepsMid(Deliver(q, todo[0], tick, h), held, todo[1..], tick, h);
      assert Later(todo, tick) == Later(todo[1..], tick);
    } else {
      HoldingKeepsMid(q, held, todo, tick);
      HandlingKeepsMid(q, held + [todo[0]], todo[1..], tick, h);
      assert held + [todo[0]] + Later(todo[1..], tick) == held + Later(todo, tick);
    }
  }

  lemma PassEnds(q: Queue, held: seq<Item>, tick: int)
    requires Mid(q, held, [], tick)
    ensures Valid(q.(items := held + q.items))
  {
    var q' := q.(items := held + q.items);
    assert held + [] + q.items == q'.items;
    forall d | d in q'.log ensures NotDueBefore(q', d.item, d.pass) {
      assert NotDueBefore(q, d.item, d.pass);
    }
    forall x | x in q'.items ensures NotDueBefore(q', x, |q'.counters|) {
      assert NotDueBefore(q, x, |q.counters|);
    }
  }

  lemma PassKeepsValid(q: Queue, tick: int, h: Handler)
    requires Valid(q)
    ensures Valid(Pass(q, tick, h))
  {
    PassBegins(q, tick);
    var q0 := q.(items := [], counters := q.counters + [tick]);
    HandlingKeepsMid(q0, [], q.items, tick, h);
    assert [] + Later(q.items, tick) == Later(q.items, tick);
    PassEnds(Handle(q.items, q0, tick, h), Later(q.items, tick), tick);
  }

  // ------------------------------------------------------------ main results

  datatype Op = DoSchedule(request: Request) | DoClear | DoPass(handler: Handler)

  /** An operation and the counter at that time. */
  datatype Timed = Timed(tick: int, op: Op)

  function Step(q: Queue, t: Timed): Queue {
    match t.op
    case DoSchedule(r) => Schedule(q, t.tick, r)
    case DoClear => Clear(q)
    case DoPass(h) => Pass(q, t.tick, h)
  }

  function After(q: Queue, run: seq<Timed>): Queue
    decreases |run|
  {
    if run == [] then q else After(Step(q, run[0]), run[1..])
  }

  /** On every run, whatever the counter does and whatever handlers schedule: each item is in exactly one place
      and is delivered at most once, in the first pass begun after it was scheduled whose counter had reached
      its target, and deliveries within a pass follow the order of scheduling. */
  lemma {:induction false} RunKeepsValid(q: Queue, run: seq<Timed>)
    requires Valid(q)
    ensures Valid(After(q, run))
    decreases |run|
  {
    if run == [] {
    } else {
      match run[0].op {
        case DoSchedule(r) => SchedulingKeepsValid(q, run[0].tick, r);
        case DoClear => ClearingKeepsValid(q);
        case DoPass(h) => PassKeepsValid(q, run[0].tick, h);
      }
      RunKeepsValid(Step(q, run[0]), run[1..]);
    }
  }

  lemma NoneIsValid()
    ensures Valid(NONE)
  {
    NothingIsPrompt();
    NothingIsAccounted();
    hide Prompt, Accounted;
  }

  lemma NothingIsPrompt()
    ensures Prompt(NONE)
  {
  }

  lemma NothingIsAccounted()
    ensures Accounted(NONE, [])
  {
  }

  /** An item that waits is delivered in the next pass exactly if its target has been reached, and otherwise
      still waits after it. */
  lemma PassDeliversDue(q: Queue, tick: int, h: Handler, x: Item)
    requires Valid(q) && x in q.items
    ensures Delivery(x, |q.counters|) in Pass(q, tick, h).log <==> x.target <= tick
    ensures x in Pass(q, tick, h).items <==> x.target > tick
  {
    PassKeepsValid(q, tick, h);
    PassHistory(q, tick, h);
    var q' := Pass(q, tick, h);
    LaterMembers(q.items, tick, x);
    if x.target <= tick {
      DueIsDelivered(q, q', tick, x);
    }
  }

  lemma DueIsDelivered(q: Queue, q': Queue, tick: int, x: Item)
    requires Valid(q) && Valid(q') && x in q.items && x.target <= tick
    requires q'.counters == q.counters + [tick] && q.made <= q'.made && q.born <= q'.born && q'.dropped == q.dropped
    ensures Delivery(x, |q.counters|) in q'.log && x !in q'.items
  {
    var id := x.id;
    var now := |q.counters|;
    assert id < |q.made| && id !in q.dropped && NotDueBefore(q, x, now);
    assert q'.made[id] == q.made[id] == x && q'.born[id] == q.born[id] <= now && q'.counters[now] == tick;
    assert !NotDueBefore(q', x, |q'.counters|);
    assert !exists y :: y in q'.items && y.id == id by {
      assert forall y :: y in q'.items ==> q'.made[y.id] == y;
    }
    var d :| d in q'.log && d.item.id == id;
    assert q'.made[id] == d.item;
    FirstDue(q, q', x, d.pass);
  }

  lemma FirstDue(q: Queue, q': Queue, x: Item, pass: nat)
    requires x.id < |q.born| && NotDueBefore(q, x, |q.counters|) && q.born[x.id] <= pass
    requires |q'.counters| == |q.counters| + 1 && q.counters <= q'.counters && pass < |q'.counters|
             && q'.counters[pass] >= x.target
    ensures pass == |q.counters|
  {
  }

  lemma {:induction false} LaterMembers(items: seq<Item>, tick: int, x: Item)
    ensures x in Later(items, tick) <==> x in items && x.target > tick
  {
    if items == [] {
    } else {
      LaterMembers(items[1..], tick, x);
      assert x in items <==> x == items[0] || x in items[1..];
    }
  }

  /** What a pass leaves of the history: it is only added to. */
  lemma PassHistory(q: Queue, tick: int, h: Handler)
    ensures var q' := Pass(q, tick, h);
            && q'.counters == q.counters + [tick] && q.log <= q'.log && q.made <= q'.made && q.born <= q'.born
            && q'.dropped == q.dropped
            && forall i :: |q.born| <= i < |q'.born| ==> q'.born[i] == |q.counters| + 1
  {
    HandleHistory(q.items, q.(items := [], counters := q.counters + [tick]), tick, h);
  }

  lemma {:induction false} HandleHistory(todo: seq<Item>, q: Queue, tick: int, h: Handler)
    requires q.counters != []
    ensures var q' := Handle(todo, q, tick, h);
            && q'.counters == q.counters && q.log <= q'.log && q.made <= q'.made && q.born <= q'.born
            && q'.dropped == q.dropped
            && forall i :: |q.born| <= i < |q'.born| ==> q'.born[i] == |q.counters|
    decreases |todo|
  {
    if todo == [] {
    } else {
      if todo[0].target <= tick {
        ScheduleHistory(Logged(q, todo[0]), tick, h(|q.log|, todo[0].payload));
        HandleHistory(todo[1..], Deliver(q, todo[0], tick, h), tick, h);
      } else {
        HandleHistory(todo[1..], q, tick, h);
      }
    }
  }

  lemma {:induction false} ScheduleHistory(q: Queue, tick: int, rs: seq<Request>)
    ensures var q' := ScheduleAll(q, tick, rs);
            && q'.counters == q.counters && q'.log == q.log && q.made <= q'.made && q.born <= q'.born
            && q'.dropped == q.dropped
            && forall i :: |q.born| <= i < |q'.born| ==> q'.born[i] == |q.counters|
    decreases |rs|
  {
    if rs == [] {
    } else {
      ScheduleHistory(Schedule(q, tick, rs[0]), tick, rs[1..]);
    }
  }

  /** What a pass delivers was waiting when it began: an item scheduled by a handler never runs in the same
      pass. */
  lemma HandlersScheduleForLater(q: Queue, tick: int, h: Handler, d: Delivery)
    requires Valid(q) && d in Pass(q, tick, h).log && d.pass == |q.counters|
    ensures d.item in q.items
  {
    PassKeepsValid(q, tick, h);
    PassHistory(q, tick, h);
    var q' := Pass(q, tick, h);
    var id := d.item.id;
    assert id < |q.born|;
    assert q'.made[id] == q.made[id];
    var j :| 0 <= j < |q'.log| && q'.log[j] == d;
    forall e | e in q.log ensures e.item.id != id {
      var i :| 0 <= i < |q.log| && q.log[i] == e;
      assert q'.log[i] == e && e != d;
    }
  }

  /** Items with equal targets are delivered in the order they were scheduled. */
  lemma EqualTargetsInOrder(q: Queue, i: nat, j: nat)
    requires Valid(q) && i < |q.log| && j < |q.log| && q.log[i].item.target == q.log[j].item.target
    ensures i < j <==> q.log[i].item.id < q.log[j].item.id
  {
    if i != j {
      EarlierFirst(q, i, j);
      EarlierFirst(q, j, i);
    }
  }

  lemma EarlierFirst(q: Queue, i: nat, j: nat)
    requires Valid(q) && i < |q.log| && j < |q.log| && i != j && q.log[i].item.target == q.log[j].item.target
    ensures q.log[i].item.id < q.log[j].item.id ==> i < j
  {
    var a, b := q.log[i], q.log[j];
    assert a in q.log && b in q.log;
    if a.item.id < b.item.id {
      assert q.born[a.item.id] <= q.born[b.item.id] <= b.pass;
      assert NotDueBefore(q, a.item, a.pass);
      var reached := q.counters[b.pass];
      assert b.pass < a.pass ==> reached < a.item.target;
    }
  }

  /** An event scheduled between two game ticks with delay 0 or 1 is delivered in the very next one, and with
      any longer delay it is not: the counter moves before events are looked at. */
  lemma NextTickTakesDelaysUpToOne(q: Queue, counter: int, r: Request, h: Handler)
    requires Valid(q)
    ensures var x := NewItem(q, counter, r);
            Delivery(x, |q.counters|) in Pass(Schedule(q, counter, r), counter + 1, h).log <==> r.delay <= 1
  {
    SchedulingKeepsValid(q, counter, r);
    PassDeliversDue(Schedule(q, counter, r), counter + 1, h, NewItem(q, counter, r));
  }

  // -------------------------------------------------- from an empty queue on

  /** May this item, by its id, be delivered in pass p: was it scheduled before, and its target reached? */
  ghost predicate DueIn(q: Queue, id: nat, p: nat)
    requires id < |q.born| && id < |q.made|
  {
    q.born[id] <= p < |q.counters| && q.counters[p] >= q.made[id].target
  }

  ghost predicate FirstDueIn(q: Queue, id: nat, p: nat)
    requires id < |q.born| && id < |q.made|
  {
    DueIn(q, id, p) && forall p': nat :: p' < p ==> !DueIn(q, id, p')
  }

  /** From an empty queue, over any run: an item that was not cleared away is delivered in exactly one pass, the
      first one after it was scheduled whose counter reached its target; and if there was none it still waits. */
  lemma DeliveredExactlyOnce(run: seq<Timed>, id: nat)
    requires id < |After(NONE, run).born| && id !in After(NONE, run).dropped
    ensures var q := After(NONE, run);
            && |q.made| == |q.born|
            && (forall p: nat :: Delivery(q.made[id], p) in q.log <==> FirstDueIn(q, id, p))
            && (q.made[id] in q.items <==> forall p: nat :: !DueIn(q, id, p))
            && (forall i, j :: 0 <= i < |q.log| && 0 <= j < |q.log| && q.log[i].item.id == id == q.log[j].item.id ==>
                  i == j)
  {
    hide *;
    NoneIsValid();
    RunKeepsValid(NONE, run);
    ValidDelivers(After(NONE, run), id);
  }

  lemma ValidDelivers(q: Queue, id: nat)
    requires Valid(q) && id < |q.born| && id !in q.dropped
    ensures |q.made| == |q.born|
    ensures forall p: nat :: Delivery(q.made[id], p) in q.log <==> FirstDueIn(q, id, p)
    ensures q.made[id] in q.items <==> forall p: nat :: !DueIn(q, id, p)
    ensures forall i, j :: 0 <= i < |q.log| && 0 <= j < |q.log| && q.log[i].item.id == id == q.log[j].item.id ==> i == j
  {
    hide Valid;
    ValidPlaces(q, id);
    var x := q.made[id];
    if x !in q.items {
      var d :| d in q.log && d.item == x;
      assert d == Delivery(x, d.pass);
      DeliveredIsFirst(q, x, d.pass);
      assert DueIn(q, id, d.pass);
    }
    forall p: nat ensures Delivery(x, p) in q.log <==> FirstDueIn(q, id, p) {
      if Delivery(x, p) in q.log {
        DeliveredIsFirst(q, x, p);
      }
      if FirstDueIn(q, id, p) {
        var d :| d in q.log && d.item == x;
        assert d == Delivery(x, d.pass);
        DeliveredIsFirst(q, x, d.pass);
        assert DueIn(q, id, d.pass);
      }
    }
  }

  /** Where an undropped item is: waiting and not due so far, or delivered, and then once. */
  lemma ValidPlaces(q: Queue, id: nat)
    requires Valid(q) && id < |q.born| && id !in q.dropped
    ensures |q.made| == |q.born| && q.made[id].id == id
    ensures q.made[id] in q.items || exists d :: d in q.log && d.item == q.made[id]
    ensures q.made[id] in q.items ==> NotDueBefore(q, q.made[id], |q.counters|)
    ensures forall i, j :: 0 <= i < |q.log| && 0 <= j < |q.log| && q.log[i].item.id == id == q.log[j].item.id ==> i == j
  {
    hide Prompt, BornInOrder, Increasing, NotDueBefore;
    assert q.made[id].id == id by {
      if x :| x in q.items && x.id == id {
        assert q.made[x.id] == x;
      } else {
        var d :| d in q.log && d.item.id == id;
        assert q.made[d.item.id] == d.item;
      }
    }
  }

  lemma DeliveredIsFirst(q: Queue, x: Item, p: nat)
    requires Valid(q) && x.id < |q.born| && x.id < |q.made| && q.made[x.id] == x && Delivery(x, p) in q.log
    ensures FirstDueIn(q, x.id, p)
  {
    hide Accounted, Increasing, BornInOrder;
    var d := Delivery(x, p);
    assert NotDueBefore(q, d.item, d.pass);
  }

  /** What was cleared away is never delivered afterwards, whatever happens. */
  lemma ClearedIsNeverDelivered(q: Queue, run: seq<Timed>, x: Item, d: Delivery)
    requires Valid(q) && x in q.items && d in After(Clear(q), run).log
    ensures d.item.id != x.id
  {
    ClearingKeepsValid(q);
    RunKeepsValid(Clear(q), run);
    RunKeepsDropped(Clear(q), run, x.id);
    hide After, Clear;
  }

  lemma {:induction false} RunKeepsDropped(q: Queue, run: seq<Timed>, id: nat)
    requires id in q.dropped
    ensures id in After(q, run).dropped
    decreases |run|
  {
    hide Pass;
    if run == [] {
    } else {
      match run[0].op {
        case DoSchedule(r) =>
        case DoClear =>
        case DoPass(h) => PassHistory(q, run[0].tick, h);
      }
      RunKeepsDropped(Step(q, run[0]), run[1..], id);
    }
  }

  // ---------------------------------------------------- what handlers schedule

  /** What a handler asked for in the deliveries from a place of the log on. */
  function Asked(log: seq<Delivery>, from: nat, h: Handler): seq<Request>
    requires from <= |log|
    decreases |log| - from
  {
    if from == |log| then [] else h(from, log[from].item.payload) + Asked(log, from + 1, h)
  }

  /** Exactly these requests were scheduled in addition, in order, at this tick. */
  ghost predicate Adds(q: Queue, q': Queue, tick: int, rs: seq<Request>) {
    && q.made <= q'.made && |q'.made| == |q.made| + |rs|
    && forall k :: 0 <= k < |rs| ==>
         var x := q'.made[|q.made| + k]; x.target == tick + rs[k].delay && x.payload == rs[k].payload
  }

  lemma AddsInTwo(a: Queue, b: Queue, c: Queue, tick: int, rs: seq<Request>, more: seq<Request>)
    requires Adds(a, b, tick, rs) && Adds(b, c, tick, more)
    ensures Adds(a, c, tick, rs + more)
  {
    forall k | 0 <= k < |rs + more|
      ensures var x := c.made[|a.made| + k];
              x.target == tick + (rs + more)[k].delay && x.payload == (rs + more)[k].payload
    {
      if k < |rs| {
        assert c.made[|a.made| + k] == b.made[|a.made| + k];
      } else {
        assert c.made[|a.made| + k] == c.made[|b.made| + (k - |rs|)];
      }
    }
  }

  lemma {:induction false} SchedulingAdds(q: Queue, tick: int, rs: seq<Request>)
    ensures Adds(q, ScheduleAll(q, tick, rs), tick, rs)
    decreases |rs|
  {
    if rs == [] {
    } else {
      var q1 := Schedule(q, tick, rs[0]);
      assert Adds(q, q1, tick, [rs[0]]);
      SchedulingAdds(q1, tick, rs[1..]);
      AddsInTwo(q, q1, ScheduleAll(q, tick, rs), tick, [rs[0]], rs[1..]);
      assert [rs[0]] + rs[1..] == rs;
    }
  }

  /** In a pass exactly what the handler asks for is scheduled: for each delivery, in order, given the number of
      deliveries before it. */
  lemma PassSchedulesAsked(q: Queue, tick: int, h: Handler)
    ensures var q' := Pass(q, tick, h); |q.log| <= |q'.log| && Adds(q, q', tick, Asked(q'.log, |q.log|, h))
  {
    HandlingSchedulesAsked(q.items, q.(items := [], counters := q.counters + [tick]), tick, h);
  }

  lemma {:induction false} HandlingSchedulesAsked(todo: seq<Item>, q: Queue, tick: int, h: Handler)
    requires q.counters != []
    ensures var q' := Handle(todo, q, tick, h); |q.log| <= |q'.log| && Adds(q, q', tick, Asked(q'.log, |q.log|, h))
    decreases |todo|
  {
    hide Adds, Schedule;
    HandleHistory(todo, q, tick, h);
    if todo == [] {
      NothingAdded(q, tick);
    } else if todo[0].target <= tick {
      var rs := h(|q.log|, todo[0].payload);
      var q1 := Deliver(q, todo[0], tick, h);
      var q' := Handle(todo, q, tick, h);
      SchedulingAdds(Logged(q, todo[0]), tick, rs);
      ScheduleHistory(Logged(q, todo[0]), tick, rs);
      HandleHistory(todo[1..], q1, tick, h);
      HandlingSchedulesAsked(todo[1..], q1, tick, h);
      LoggingAdds(q, q1, todo[0], tick, rs);
      assert q'.log[|q.log|] == q1.log[|q.log|] == Delivery(todo[0], |q.counters| - 1);
      AddsInTwo(q, q1, q', tick, rs, Asked(q'.log, |q.log| + 1, h));
    } else {
      HandlingSchedulesAsked(todo[1..], q, tick, h);
    }
  }

  lemma NothingAdded(q: Queue, tick: int)
    ensures Adds(q, q, tick, [])
  {
  }

  lemma LoggingAdds(q: Queue, q': Queue, x: Item, tick: int, rs: seq<Request>)
    requires q.counters != [] && Adds(Logged(q, x), q', tick, rs)
    ensures Adds(q, q', tick, rs)
  {
  }
}
