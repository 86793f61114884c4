/** Periodic callbacks on one hardware timer (src/avr/cron.c): the interrupt queues the ids
    that are due, cron_try takes them off. */
module CronTimer {
  import opened Constants
  import opened RingBuffer
  import opened Sequences

  const CRON_ID_MAX := 4
  const BUF_MAX := 64

  /** For each id whether it has a callback, its factor and its counter. */
  datatype Cron = Cron(callbacks: seq<bool>, factors: seq<byte>, counters: seq<byte>, queue: Fifo, timerOn: bool)

  /** Enabling with a null callback is possible; nothing in the program does it. */
  datatype Event = Tick | Try | Enable(id: nat, factor: byte, callback: bool) | Disable(id: nat)

  predicate Sound(c: Cron) {
    |c.callbacks| == |c.factors| == |c.counters| == CRON_ID_MAX
  }

  function Period(factor: byte): nat {
    if factor == 0 then 1 else factor
  }

  predicate Required(callbacks: seq<bool>) {
    exists i :: 0 <= i < |callbacks| && callbacks[i]
  }

  /** ++ on a uint8_t. */
  function Inc(b: byte): byte {
    if b == 255 then 0 else b + 1
  }

  /** The interrupt at one id. */
  function TickOne(c: Cron, i: nat): (c1: Cron)
    requires Sound(c) && i < CRON_ID_MAX
    ensures Sound(c1)
  {
    var next := Inc(c.counters[i]);
    if !c.callbacks[i] then c
    else if next >= c.factors[i] then
      c.(counters := c.counters[i := 0], queue := Filled(BUF_MAX, c.queue, [i]))
    else c.(counters := c.counters[i := next])
  }

  /** The interrupt at ids `i` and up. */
  function TickFrom(c: Cron, i: nat): (c1: Cron)
    requires Sound(c) && i <= CRON_ID_MAX
    ensures Sound(c1)
    decreases CRON_ID_MAX - i
  {
    if i == CRON_ID_MAX then c else TickFrom(TickOne(c, i), i + 1)
  }

  function EnableSlot(c: Cron, id: nat, factor: byte, callback: bool): (c1: Cron)
    requires Sound(c)
    ensures Sound(c1)
  {
    if id >= CRON_ID_MAX then c
    else
      var callbacks := c.callbacks[id := callback];
      c.(callbacks := callbacks, factors := c.factors[id := factor], counters := c.counters[id := 0],
         timerOn := c.timerOn || Required(callbacks))
  }

  function DisableSlot(c: Cron, id: nat): (c1: Cron)
    requires Sound(c)
    ensures Sound(c1)
  {
    if id >= CRON_ID_MAX then c
    else
      var callbacks := c.callbacks[id := false];
      c.(callbacks := callbacks, factors := c.factors[id := 0], counters := c.counters[id := 0],
         timerOn := c.timerOn && Required(callbacks))
  }

  /** The callback cron_try invokes. */
  function Invoked(c: Cron): Option<byte>
    requires Sound(c)
  {
    if c.queue.contents == [] || c.queue.contents[0] >= CRON_ID_MAX || !c.callbacks[c.queue.contents[0]] then None
    else Some(c.queue.contents[0])
  }

  function Do(c: Cron, ev: Event): (c1: Cron)
    requires Sound(c)
    ensures Sound(c1)
  {
    match ev
    case Tick => TickFrom(c, 0)
    case Try => c.(queue := Drained(BUF_MAX, c.queue))
    case Enable(id, factor, callback) => EnableSlot(c, id, factor, callback)
    case Disable(id) => DisableSlot(c, id)
  }

  // ----- the hardware timer -----

  predicate TimerRight(c: Cron) {
    c.timerOn <==> Required(c.callbacks)
  }

  lemma TickFromFrame(c: Cron, i: nat)
    requires Sound(c) && i <= CRON_ID_MAX
    ensures var c1 := TickFrom(c, i); c1 == c.(counters := c1.counters, queue := c1.queue)
    decreases CRON_ID_MAX - i
  {
    if i < CRON_ID_MAX {
      TickFromFrame(TickOne(c, i), i + 1);
    }
  }

  /** The timer is on exactly while a callback is registered, and stays so at every event but
      one: enabling the only registered id with a null callback leaves the timer running. */
  lemma TimerStep(c: Cron, ev: Event)
    requires Sound(c) && TimerRight(c)
    ensures TimerRight(Do(c, ev))
            <==> !(ev.Enable? && ev.id < CRON_ID_MAX && !ev.callback && c.callbacks[ev.id]
                   && forall i :: 0 <= i < CRON_ID_MAX && i != ev.id ==> !c.callbacks[i])
  {
    match ev
    case Tick => TickFromFrame(c, 0);
    case Try =>
    case Enable(id, factor, callback) =>
      if id < CRON_ID_MAX {
        var c1 := EnableSlot(c, id, factor, callback);
        assert c1.callbacks[id] == callback;
        assert forall i :: 0 <= i < CRON_ID_MAX && i != id ==> c1.callbacks[i] == c.callbacks[i];
      }
    case Disable(id) =>
      if id < CRON_ID_MAX {
        var c1 := DisableSlot(c, id);
        assert forall i :: 0 <= i < CRON_ID_MAX && c1.callbacks[i] ==> c.callbacks[i];
      }
  }

  function After(c: Cron, events: seq<Event>): (c1: Cron)
    requires Sound(c)
    ensures Sound(c1)
    decreases |events|
  {
    if events == [] then c else After(Do(c, events[0]), events[1..])
  }

  /** With non-null callbacks the timer is right after every sequence of events. */
  lemma {:induction false} TimerRuns(c: Cron, events: seq<Event>)
    requires Sound(c) && TimerRight(c)
    requires forall i :: 0 <= i < |events| && events[i].Enable? ==> events[i].callback
    ensures TimerRight(After(c, events))
    decreases |events|
  {
    if events != [] {
      TimerStep(c, events[0]);
      TimerRuns(Do(c, events[0]), events[1..]);
    }
  }

  // ----- periods -----

  /** The ids from `i` up that are due at the next tick. */
  function Due(c: Cron, i: nat): seq<byte>
    requires Sound(c) && i <= CRON_ID_MAX
    decreases CRON_ID_MAX - i
  {
    if i == CRON_ID_MAX then []
    else (if DueAt(c, i) then [i as byte] else []) + Due(c, i + 1)
  }

  predicate DueAt(c: Cron, i: nat)
    requires Sound(c) && i < CRON_ID_MAX
  {
    c.callbacks[i] && Inc(c.counters[i]) >= c.factors[i]
  }

  /** There is room for every id below the capacity of the queue. */
  predicate Roomy(c: Cron) {
    Intact(BUF_MAX, c.queue) && |c.queue.contents| + CRON_ID_MAX < BUF_MAX
  }

  lemma DueSize(c: Cron, i: nat)
    requires Sound(c) && i <= CRON_ID_MAX
    ensures |Due(c, i)| <= CRON_ID_MAX - i
    decreases CRON_ID_MAX - i
  {
    if i < CRON_ID_MAX {
      DueSize(c, i + 1);
    }
  }

  lemma DueSame(c: Cron, c1: Cron, i: nat)
    requires Sound(c) && Sound(c1) && i <= CRON_ID_MAX && c1.callbacks == c.callbacks && c1.factors == c.factors
    requires forall k :: i <= k < CRON_ID_MAX ==> c1.counters[k] == c.counters[k]
    ensures Due(c1, i) == Due(c, i)
    decreases CRON_ID_MAX - i
  {
    if i < CRON_ID_MAX {
      DueSame(c, c1, i + 1);
    }
  }

  /** What a tick makes of one counter. */
  function Counted(c: Cron, i: nat): byte
    requires Sound(c) && i < CRON_ID_MAX
  {
    if !c.callbacks[i] then c.counters[i] else if DueAt(c, i) then 0 else Inc(c.counters[i])
  }

  lemma TickOneEffect(c: Cron, i: nat)
    requires Sound(c) && i < CRON_ID_MAX && Intact(BUF_MAX, c.queue) && |c.queue.contents| + 1 < BUF_MAX
    ensures var c1 := TickOne(c, i);
            && Intact(BUF_MAX, c1.queue)
            && c1.queue.contents == c.queue.contents + (if DueAt(c, i) then [i as byte] else [])
            && c1.counters == c.counters[i := Counted(c, i)]
            && c1 == c.(counters := c1.counters, queue := c1.queue)
  {
    if DueAt(c, i) {
      BelowCapacity(BUF_MAX, c.queue, [i as byte]);
    }
  }

  /** A tick queues exactly the ids that are due, in order. */
  lemma {:induction false} TickQueues(c: Cron, i: nat)
    requires Sound(c) && i <= CRON_ID_MAX && Intact(BUF_MAX, c.queue)
    requires |c.queue.contents| + (CRON_ID_MAX - i) < BUF_MAX
    ensures Intact(BUF_MAX, TickFrom(c, i).queue)
    ensures TickFrom(c, i).queue.contents == c.queue.contents + Due(c, i)
    decreases CRON_ID_MAX - i
  {
    if i < CRON_ID_MAX {
      TickOneEffect(c, i);
      var c1 := TickOne(c, i);
      TickQueues(c1, i + 1);
      DueSame(c, c1, i + 1);
      Assoc(c.queue.contents, if DueAt(c, i) then [i as byte] else [], Due(c, i + 1));
    }
  }

  /** A tick moves every live counter on, and those that are due back to 0. */
  lemma {:induction false} TickCounts(c: Cron, i: nat, k: nat)
    requires Sound(c) && i <= CRON_ID_MAX && k < CRON_ID_MAX
    ensures TickFrom(c, i).counters[k] == if k < i then c.counters[k] else Counted(c, k)
    decreases CRON_ID_MAX - i
  {
    if i < CRON_ID_MAX {
      TickCounts(TickOne(c, i), i + 1, k);
    }
  }

  /** How often `id` occurs. */
  function Count(ids: seq<byte>, id: nat): nat
    decreases |ids|
  {
    if ids == [] then 0 else (if ids[0] == id then 1 else 0) + Count(ids[1..], id)
  }

  lemma {:induction false} CountConcat(a: seq<byte>, b: seq<byte>, id: nat)
    ensures Count(a + b, id) == Count(a, id) + Count(b, id)
    decreases |a|
  {
    if a == [] {
      assert a + b == b;
    } else {
      assert (a + b)[1..] == a[1..] + b;
      CountConcat(a[1..], b, id);
    }
  }

  lemma {:induction false} CountDue(c: Cron, i: nat, id: nat)
    requires Sound(c) && i <= CRON_ID_MAX && id < CRON_ID_MAX
    ensures Count(Due(c, i), id) == if i <= id && DueAt(c, id) then 1 else 0
    decreases CRON_ID_MAX - i
  {
    if i < CRON_ID_MAX {
      CountDue(c, i + 1, id);
      var one: seq<byte> := if DueAt(c, i) then [i as byte] else [];
      CountConcat(one, Due(c, i + 1), id);
    }
  }

  function Added(c: Cron, ev: Event): seq<byte>
    requires Sound(c)
  {
    if ev == Tick then Due(c, 0) else []
  }

  function Taken(c: Cron, ev: Event): seq<byte>
    requires Sound(c)
  {
    if ev == Try && c.queue.contents != [] then [c.queue.contents[0]] else []
  }

  /** The ids that the ticks of a run find due. */
  function Pushed(c: Cron, events: seq<Event>): seq<byte>
    requires Sound(c)
    decreases |events|
  {
    if events == [] then [] else Added(c, events[0]) + Pushed(Do(c, events[0]), events[1..])
  }

  /** The ids that cron_try takes off in a run. */
  function Popped(c: Cron, events: seq<Event>): seq<byte>
    requires Sound(c)
    decreases |events|
  {
    if events == [] then [] else Taken(c, events[0]) + Popped(Do(c, events[0]), events[1..])
  }

  /** At every tick of the run the queue has room. */
  predicate AlwaysRoomy(c: Cron, events: seq<Event>)
    requires Sound(c)
    decreases |events|
  {
    events == [] || ((events[0] == Tick ==> Roomy(c)) && AlwaysRoomy(Do(c, events[0]), events[1..]))
  }

  function Ticks(events: seq<Event>): nat
    decreases |events|
  {
    if events == [] then 0 else (if events[0] == Tick then 1 else 0) + Ticks(events[1..])
  }

  predicate LeftAlone(ev: Event, id: nat) {
    (ev.Enable? ==> ev.id != id) && (ev.Disable? ==> ev.id != id)
  }

  lemma StepFrame(c: Cron, ev: Event, id: nat)
    requires Sound(c) && id < CRON_ID_MAX && LeftAlone(ev, id)
    ensures Do(c, ev).callbacks[id] == c.callbacks[id] && Do(c, ev).factors[id] == c.factors[id]
    ensures Do(c, ev).counters[id] == if ev == Tick then Counted(c, id) else c.counters[id]
  {
    if ev == Tick {
      TickFromFrame(c, 0);
      TickCounts(c, 0, id);
    }
  }

  lemma AddedCount(c: Cron, ev: Event, rest: seq<byte>, id: nat)
    requires Sound(c) && id < CRON_ID_MAX
    ensures Count(Added(c, ev) + rest, id) == (if ev == Tick && DueAt(c, id) then 1 else 0) + Count(rest, id)
  {
    CountDue(c, 0, id);
    CountConcat(Added(c, ev), rest, id);
  }

  /** `count` periods and the counter at the end make up the counter at the start and the ticks. */
  predicate Adds(count: nat, period: nat, last: nat, first: nat, ticks: nat) {
    Times(count, period) + last == first + ticks
  }

  function Times(n: nat, d: nat): nat
    decreases n
  {
    if n == 0 then 0 else d + Times(n - 1, d)
  }

  lemma {:induction false} TimesIsProduct(n: nat, d: nat)
    ensures Times(n, d) == n * d
    decreases n
  {
    if n > 0 {
      TimesIsProduct(n - 1, d);
    }
  }

  lemma Accrue(due: bool, rest: nat, period: nat, counter: nat, next: nat, last: nat, ticks: nat)
    requires Adds(rest, period, last, next, ticks)
    requires if due then counter + 1 == period && next == 0 else next == counter + 1
    ensures Adds((if due then 1 else 0) + rest, period, last, counter, 1 + ticks)
  {
  }

  /** The first event of a run and the rest of it, as far as `id` is concerned. */
  lemma FirstCount(c: Cron, events: seq<Event>, id: nat)
    requires Sound(c) && id < CRON_ID_MAX && events != []
    ensures var ticks := events[0] == Tick;
            var c1 := Do(c, events[0]);
            && Count(Pushed(c, events), id)
               == (if ticks && DueAt(c, id) then 1 else 0) + Count(Pushed(c1, events[1..]), id)
            && After(c, events) == After(c1, events[1..])
            && Ticks(events) == (if ticks then 1 else 0) + Ticks(events[1..])
  {
    AddedCount(c, events[0], Pushed(Do(c, events[0]), events[1..]), id);
  }

  /** Every Period(factor)-th tick finds a live id due, and its counter has the rest. */
  lemma {:induction false} PeriodCounts(c: Cron, events: seq<Event>, id: nat)
    requires Sound(c) && id < CRON_ID_MAX && c.callbacks[id] && c.counters[id] < Period(c.factors[id])
    requires forall i :: 0 <= i < |events| ==> LeftAlone(events[i], id)
    ensures var period := Period(c.factors[id]);
            var c1 := After(c, events);
            && c1.counters[id] < period
            && Adds(Count(Pushed(c, events), id), period, c1.counters[id], c.counters[id], Ticks(events))
    decreases |events|
  {
    if events != [] {
      var c1 := Do(c, events[0]);
      StepFrame(c, events[0], id);
      FirstCount(c, events, id);
      PeriodCounts(c1, events[1..], id);
      if events[0] == Tick {
        Accrue(DueAt(c, id), Count(Pushed(c1, events[1..]), id), Period(c.factors[id]), c.counters[id],
               c1.counters[id], After(c, events).counters[id], Ticks(events[1..]));
      }
    }
  }

  lemma AtLeastOne(a: int, d: nat)
    requires a >= 1
    ensures a * d >= d
  {
  }

  lemma Unique(q: int, r: int, q1: int, r1: int, d: nat)
    requires 0 <= r < d && 0 <= r1 < d && q * d + r == q1 * d + r1
    ensures q == q1 && r == r1
  {
    assert (q - q1) * d == q * d - q1 * d && (q1 - q) * d == q1 * d - q * d;
    if q > q1 {
      AtLeastOne(q - q1, d);
    } else if q < q1 {
      AtLeastOne(q1 - q, d);
    }
  }

  lemma DivMod(n: nat, q: nat, r: nat, d: nat)
    requires 0 < d && q * d + r == n && r < d
    ensures q == n / d && r == n % d
  {
    assert (n / d) * d + n % d == n;
    Unique(q, r, n / d, n % d, d);
  }

  lemma StepConserves(c: Cron, ev: Event)
    requires Sound(c) && Intact(BUF_MAX, c.queue) && (ev == Tick ==> Roomy(c))
    ensures c.queue.contents + Added(c, ev) == Taken(c, ev) + Do(c, ev).queue.contents
    ensures Intact(BUF_MAX, Do(c, ev).queue)
  {
    if ev == Tick {
      TickQueues(c, 0);
    }
  }

  lemma Regroup(q: seq<byte>, added: seq<byte>, taken: seq<byte>, q1: seq<byte>, pushed: seq<byte>,
                popped: seq<byte>, q2: seq<byte>)
    requires q + added == taken + q1 && q1 + pushed == popped + q2
    ensures q + (added + pushed) == (taken + popped) + q2
  {
    assert q + (added + pushed) == (q + added) + pushed;
    assert (taken + q1) + pushed == taken + (q1 + pushed);
    assert taken + (popped + q2) == (taken + popped) + q2;
  }

  /** While the queue has room at every tick, what cron_try takes off is what the ticks found
      due, in that order, and the rest is still there. */
  lemma {:induction false} QueueConserves(c: Cron, events: seq<Event>)
    requires Sound(c) && Intact(BUF_MAX, c.queue) && AlwaysRoomy(c, events)
    ensures c.queue.contents + Pushed(c, events) == Popped(c, events) + After(c, events).queue.contents
    ensures Intact(BUF_MAX, After(c, events).queue)
    decreases |events|
  {
    if events != [] {
      var c1 := Do(c, events[0]);
      StepConserves(c, events[0]);
      QueueConserves(c1, events[1..]);
      Regroup(c.queue.contents, Added(c, events[0]), Taken(c, events[0]), c1.queue.contents,
              Pushed(c1, events[1..]), Popped(c1, events[1..]), After(c, events).queue.contents);
    }
  }

  /** An id enabled with factor f and left alone has been found due floor(n / max(1, f)) times
      after n ticks, and its counter is n mod max(1, f); while the queue has room, so often has
      it been queued. */
  lemma PeriodicTicks(c: Cron, id: nat, factor: byte, events: seq<Event>)
    requires Sound(c) && id < CRON_ID_MAX
    requires forall i :: 0 <= i < |events| ==> LeftAlone(events[i], id)
    ensures var c0 := EnableSlot(c, id, factor, true);
            var n := Ticks(events);
            && Count(Pushed(c0, events), id) == n / Period(factor)
            && After(c0, events).counters[id] == n % Period(factor)
    ensures var c0 := EnableSlot(c, id, factor, true);
            Intact(BUF_MAX, c.queue) && AlwaysRoomy(c0, events) ==>
              Count(Popped(c0, events), id) + Count(After(c0, events).queue.contents, id)
              == Count(c.queue.contents, id) + Ticks(events) / Period(factor)
  {
    var c0 := EnableSlot(c, id, factor, true);
    var c1 := After(c0, events);
    PeriodCounts(c0, events, id);
    TimesIsProduct(Count(Pushed(c0, events), id), Period(factor));
    DivMod(Ticks(events), Count(Pushed(c0, events), id), c1.counters[id], Period(factor));
    if Intact(BUF_MAX, c.queue) && AlwaysRoomy(c0, events) {
      QueueConserves(c0, events);
      CountConcat(c.queue.contents, Pushed(c0, events), id);
      CountConcat(Popped(c0, events), c1.queue.contents, id);
    }
  }

  // ----- callbacks -----

  /** The id whose callback an event invokes. */
  function Invoking(c: Cron, ev: Event): seq<byte>
    requires Sound(c)
  {
    if ev == Try && Invoked(c).Some? then [Invoked(c).value] else []
  }

  /** The ids whose callbacks cron_try invokes in a run, in order. */
  function Calls(c: Cron, events: seq<Event>): seq<byte>
    requires Sound(c)
    decreases |events|
  {
    if events == [] then [] else Invoking(c, events[0]) + Calls(Do(c, events[0]), events[1..])
  }

  /** What is invoked is what is taken off, if it has a callback. */
  lemma InvokingTaken(c: Cron, ev: Event, id: nat)
    requires Sound(c) && id < CRON_ID_MAX
    ensures Count(Invoking(c, ev), id) == if c.callbacks[id] then Count(Taken(c, ev), id) else 0
  {
  }

  lemma FirstCall(c: Cron, events: seq<Event>, id: nat)
    requires Sound(c) && events != []
    ensures var c1 := Do(c, events[0]);
            && Count(Calls(c, events), id) == Count(Invoking(c, events[0]), id) + Count(Calls(c1, events[1..]), id)
            && Count(Popped(c, events), id) == Count(Taken(c, events[0]), id) + Count(Popped(c1, events[1..]), id)
  {
    var c1 := Do(c, events[0]);
    CountConcat(Invoking(c, events[0]), Calls(c1, events[1..]), id);
    CountConcat(Taken(c, events[0]), Popped(c1, events[1..]), id);
  }

  /** An id left alone is invoked once for each of its entries that cron_try takes off, if it has a
      callback, and never if it has none. */
  lemma {:induction false} InvokedOnce(c: Cron, events: seq<Event>, id: nat)
    requires Sound(c) && id < CRON_ID_MAX
    requires forall i :: 0 <= i < |events| ==> LeftAlone(events[i], id)
    ensures Count(Calls(c, events), id) == if c.callbacks[id] then Count(Popped(c, events), id) else 0
    decreases |events|
  {
    if events != [] {
      StepFrame(c, events[0], id);
      FirstCall(c, events, id);
      InvokingTaken(c, events[0], id);
      InvokedOnce(Do(c, events[0]), events[1..], id);
    }
  }

  /** An id enabled with a callback and factor f and left alone is invoked, while the queue has room,
      floor(n / max(1, f)) times in n ticks, and once more for each entry it had in the queue before,
      but for those that cron_try has yet to take off. */
  lemma PeriodicCalls(c: Cron, id: nat, factor: byte, events: seq<Event>)
    requires Sound(c) && id < CRON_ID_MAX && Intact(BUF_MAX, c.queue)
    requires forall i :: 0 <= i < |events| ==> LeftAlone(events[i], id)
    requires AlwaysRoomy(EnableSlot(c, id, factor, true), events)
    ensures var c0 := EnableSlot(c, id, factor, true);
            Count(Calls(c0, events), id) + Count(After(c0, events).queue.contents, id)
            == Count(c.queue.contents, id) + Ticks(events) / (if factor == 0 then 1 else factor)
  {
    PeriodicTicks(c, id, factor, events);
    InvokedOnce(EnableSlot(c, id, factor, true), events, id);
  }

  /** An id that has been disabled and left alone is never invoked, whatever is still in the queue,
      and is never found due. */
  lemma DisabledNever(c: Cron, id: nat, events: seq<Event>)
    requires Sound(c) && id < CRON_ID_MAX
    requires forall i :: 0 <= i < |events| ==> LeftAlone(events[i], id)
    ensures var c0 := DisableSlot(c, id);
            Count(Calls(c0, events), id) == 0 && Count(Pushed(c0, events), id) == 0
  {
    InvokedOnce(DisableSlot(c, id), events, id);
    NeverDue(DisableSlot(c, id), events, id);
  }

  lemma {:induction false} NeverDue(c: Cron, events: seq<Event>, id: nat)
    requires Sound(c) && id < CRON_ID_MAX && !c.callbacks[id]
    requires forall i :: 0 <= i < |events| ==> LeftAlone(events[i], id)
    ensures Count(Pushed(c, events), id) == 0
    decreases |events|
  {
    if events != [] {
      StepFrame(c, events[0], id);
      FirstCount(c, events, id);
      NeverDue(Do(c, events[0]), events[1..], id);
    }
  }
}
