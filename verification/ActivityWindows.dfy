/**
 Cyclic activity windows of guided-table rules (server/core/virtual_bots.py): when a rule is
 active, and the predictor of its next change.
 */
module ActivityWindows {
  import opened Wrappers
  import opened Arithmetic

  datatype Window = Window(start: int, end: int)

  /** A rule's schedule: the cycle length and the active part of it, if any is given. */
  datatype Schedule = Schedule(cycleTicks: int, activeWindow: Option<Window>)

  datatype ScheduleError = WindowWithoutCycle | WindowOutOfBounds

  /** The window checks made when the configuration is loaded. */
  function ValidateSchedule(s: Schedule): Result<Schedule, ScheduleError> {
    match s.activeWindow
    case None => Ok(s)
    case Some(w) =>
      if s.cycleTicks <= 0 then Err(WindowWithoutCycle)
      else if !(0 <= w.start < s.cycleTicks && 0 <= w.end <= s.cycleTicks) then Err(WindowOutOfBounds)
      else Ok(s)
  }

  /** A schedule with a window that passed validation. */
  predicate Windowed(s: Schedule) {
    s.activeWindow.Some? && ValidateSchedule(s).Ok?
  }

  /** Is a rule with this schedule active at a tick? */
  predicate IsActive(s: Schedule, counter: nat) {
    if s.cycleTicks <= 0 || s.activeWindow.None? then true
    else
      var Window(start, end) := s.activeWindow.value;
      var tick := counter % s.cycleTicks;
      if start == end then false
      else if start < end then start <= tick < end
      else tick >= start || tick < end
  }

  /** Ticks until the next transition, as the server predicts it. */
  function TicksUntilNextChange(s: Schedule, counter: nat): Option<int> {
    if s.cycleTicks <= 0 || s.activeWindow.None? then None
    else
      var Window(start, end) := s.activeWindow.value;
      var cycle := s.cycleTicks;
      var tick := counter % cycle;
      if start == end then None
      else if IsActive(s, counter) then
        if start < end then Some(Max(end - tick, 0))
        else if tick >= start then Some((cycle - tick) + end)
        else Some(Max(end - tick, 0))
      else if start < end then
        if tick < start then Some(start - tick) else Some((cycle - tick) + start)
      else if tick < start && tick >= end then Some(start - tick)
      else Some((cycle - tick) + start)
  }

  /** Number of active ticks among `counter .. counter + n`. */
  function ActiveCount(s: Schedule, counter: nat, n: nat): nat {
    if n == 0 then 0
    else ActiveCount(s, counter, n - 1) + if IsActive(s, counter + n - 1) then 1 else 0
  }

  /** Length of a window, wrapping past the end of the cycle when it starts after it ends. */
  function WindowLength(s: Schedule): int
    requires s.activeWindow.Some?
  {
    var Window(start, end) := s.activeWindow.value;
    if start <= end then end - start else s.cycleTicks - start + end
  }

  /** k is when the rule next changes: constant for the ticks before it, flipped at it. */
  ghost predicate ChangesExactlyAt(s: Schedule, counter: nat, k: int) {
    && k >= 1
    && (forall t: nat :: counter <= t < counter + k ==> IsActive(s, t) == IsActive(s, counter))
    && IsActive(s, counter + k) != IsActive(s, counter)
  }

  // --------------------------------------------------------------- lemmas

  /** Where the tick counter stands j ticks later, j at most one cycle. */
  lemma TickAfter(counter: nat, j: nat, cycle: int)
    requires cycle > 0 && j <= cycle
    ensures var tick := counter % cycle;
            (counter + j) % cycle == if tick + j < cycle then tick + j else tick + j - cycle
  {
    var q, tick := counter / cycle, counter % cycle;
    assert counter + j == q * cycle + (tick + j);
    if tick + j < cycle {
      DivMod(q, tick + j, cycle);
    } else {
      assert q * cycle + (tick + j) == (q + 1) * cycle + (tick + j - cycle);
      DivMod(q + 1, tick + j - cycle, cycle);
    }
  }

  lemma MulAtLeast(d: int, cycle: int)
    requires d >= 1 && cycle > 0
    ensures d * cycle >= cycle
  {
    assert d * cycle == cycle + (d - 1) * cycle;
  }

  /** Quotient and remainder are unique. */
  lemma DivMod(q: nat, r: nat, cycle: int)
    requires 0 <= r < cycle
    ensures (q * cycle + r) % cycle == r
  {
    var n := q * cycle + r;
    var q', r' := n / cycle, n % cycle;
    assert n == q' * cycle + r';
    if q' > q {
      assert (q' - q) * cycle == q' * cycle - q * cycle;
      MulAtLeast(q' - q, cycle);
    } else if q' < q {
      assert (q - q') * cycle == q * cycle - q' * cycle;
      MulAtLeast(q - q', cycle);
    }
  }

  /** Activity as a function of the place in the cycle alone. */
  predicate ActiveAtTick(w: Window, tick: int) {
    if w.start == w.end then false
    else if w.start < w.end then w.start <= tick < w.end
    else tick >= w.start || tick < w.end
  }

  /** The rule's activity j ticks later, at most one cycle ahead. */
  lemma ActiveAfter(s: Schedule, counter: nat, j: nat)
    requires Windowed(s) && j <= s.cycleTicks
    ensures var tick := counter % s.cycleTicks + j;
            IsActive(s, counter + j)
            == ActiveAtTick(s.activeWindow.value, if tick < s.cycleTicks then tick else tick - s.cycleTicks)
  {
    TickAfter(counter, j, s.cycleTicks);
  }

  // --------------------------------------------------------- main results

  /** Activity repeats every cycle, for every schedule the server accepts or not. */
  lemma Periodic(s: Schedule, counter: nat)
    requires s.cycleTicks > 0
    ensures IsActive(s, counter + s.cycleTicks) == IsActive(s, counter)
  {
    TickAfter(counter, s.cycleTicks, s.cycleTicks);
  }

  /** The predictor says nothing exactly when the rule has no window or an empty one, and then the
      rule never changes. */
  lemma SilentMeansConstant(s: Schedule, counter: nat, later: nat)
    requires ValidateSchedule(s).Ok?
    ensures TicksUntilNextChange(s, counter).None?
        <==> s.activeWindow.None? || s.activeWindow.value.start == s.activeWindow.value.end
    ensures TicksUntilNextChange(s, counter).None? ==> IsActive(s, counter) == IsActive(s, later)
  {
  }

  /** For every accepted window other than the full cycle, the predicted count is right. */
  lemma PredictionIsExact(s: Schedule, counter: nat)
    requires Windowed(s) && TicksUntilNextChange(s, counter).Some?
    requires !(s.activeWindow.value.start == 0 && s.activeWindow.value.end == s.cycleTicks)
    ensures ChangesExactlyAt(s, counter, TicksUntilNextChange(s, counter).value)
  {
    var k := TicksUntilNextChange(s, counter).value;
    ActiveAfter(s, counter, k);
    forall t: nat | counter <= t < counter + k ensures IsActive(s, t) == IsActive(s, counter) {
      ActiveAfter(s, counter, t - counter);
      assert counter + (t - counter) == t;
    }
  }

  /** The full window is the one accepted window on which the predictor is wrong: it keeps
      announcing a change that never comes. */
  lemma PredictionExactIff(s: Schedule)
    requires Windowed(s) && s.activeWindow.value.start != s.activeWindow.value.end
    ensures (forall counter: nat ::
               TicksUntilNextChange(s, counter).Some?
               && ChangesExactlyAt(s, counter, TicksUntilNextChange(s, counter).value))
        <==> !(s.activeWindow.value.start == 0 && s.activeWindow.value.end == s.cycleTicks)
  {
    var w := s.activeWindow.value;
    if w.start == 0 && w.end == s.cycleTicks {
      var k := TicksUntilNextChange(s, 0).value;
      assert IsActive(s, 0) && IsActive(s, 0 + k);
      assert !ChangesExactlyAt(s, 0, k);
    } else {
      forall counter: nat
        ensures TicksUntilNextChange(s, counter).Some?
             && ChangesExactlyAt(s, counter, TicksUntilNextChange(s, counter).value)
      {
        PredictionIsExact(s, counter);
      }
    }
  }

  /** Counting within the first cycle: the active ticks below n are those of the window below n. */
  lemma {:induction false} CountFromZero(s: Schedule, n: nat)
    requires Windowed(s) && n <= s.cycleTicks
    ensures var Window(start, end) := s.activeWindow.value;
            ActiveCount(s, 0, n) == if start <= end then Max(0, (if n < end then n else end) - start)
                                    else (if n < end then n else end) + Max(0, n - start)
  {
    if n == 0 {
    } else {
      CountFromZero(s, n - 1);
      ActiveAfter(s, 0, n - 1);
    }
  }

  /** Sliding the counted stretch by one tick trades its first tick for the one after its last. */
  lemma {:induction false} CountShift(s: Schedule, counter: nat, n: nat)
    ensures ActiveCount(s, counter + 1, n) + (if IsActive(s, counter) then 1 else 0)
         == ActiveCount(s, counter, n) + (if IsActive(s, counter + n) then 1 else 0)
  {
    if n == 0 {
    } else {
      CountShift(s, counter, n - 1);
      assert counter + 1 + n - 1 == counter + n;
    }
  }

  /** Any `cycle` consecutive ticks contain exactly the window's length of active ones. */
  lemma {:induction false} CycleHoldsWindow(s: Schedule, counter: nat)
    requires Windowed(s)
    ensures ActiveCount(s, counter, s.cycleTicks) == WindowLength(s)
  {
    if counter == 0 {
      CountFromZero(s, s.cycleTicks);
    } else {
      CycleHoldsWindow(s, counter - 1);
      CountShift(s, counter - 1, s.cycleTicks);
      Periodic(s, counter - 1);
    }
  }

  // ---------------------------------------------------------- validation

  /** A schedule is accepted exactly if its window, if it has one, lies within a cycle; a window without a cycle
      and one outside it are told apart. */
  lemma AcceptedIff(s: Schedule)
    ensures ValidateSchedule(s).Ok? <==>
              (s.activeWindow.Some? ==>
                 var w := s.activeWindow.value; 0 <= w.start < s.cycleTicks && 0 <= w.end <= s.cycleTicks)
    ensures ValidateSchedule(s) == Err(WindowWithoutCycle) <==> s.activeWindow.Some? && s.cycleTicks <= 0
    ensures ValidateSchedule(s).Ok? ==> ValidateSchedule(s).value == s
  {
  }

  /** With an accepted schedule a rule is active exactly while less than the window's length has passed since the
      window last began. */
  lemma ActiveIff(s: Schedule, counter: nat)
    requires Windowed(s)
    ensures var w := s.activeWindow.value;
            var length := if w.end >= w.start then w.end - w.start else w.end + s.cycleTicks - w.start;
            IsActive(s, counter) <==> (counter + s.cycleTicks - w.start) % s.cycleTicks < length
  {
    TickAfter(counter, s.cycleTicks - s.activeWindow.value.start, s.cycleTicks);
    ModIsRest(counter, s.cycleTicks);
  }

  lemma ModIsRest(counter: nat, cycle: int)
    requires cycle > 0
    ensures 0 <= counter % cycle < cycle
  {
  }
}
