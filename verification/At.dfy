/** One-shot timers (src/avr/at.c): four slots counted by `verify`, which a cron slot calls
    while any of them is taken. */
module AtTimers {
  import opened Constants

  const AT_MAX := 4

  /** A slot is live while it holds a callback. */
  datatype Slot = Slot(current: byte, max: byte, live: bool)

  /** The slots, whether the cron slot that calls `verify` is enabled, and the ids whose
      callbacks have been invoked so far. */
  datatype Timers = Timers(slots: seq<Slot>, ticking: bool, fired: seq<nat>)

  datatype Action = Schedule(id: nat, delay: byte) | Postpone(id: nat) | Cancel(id: nat)

  /** What the program does: it uses the timers, or `verify` reaches slot `id`, whose callback,
      should it fire, does `script`. */
  datatype Step = Use(action: Action) | Visit(id: nat, script: seq<Action>)

  predicate Sound(t: Timers) {
    |t.slots| == AT_MAX
  }

  predicate Empty(slots: seq<Slot>) {
    forall i :: 0 <= i < |slots| ==> !slots[i].live
  }

  function Delay(max: byte): nat {
    if max == 0 then 1 else max
  }

  function Release(t: Timers, id: nat): Timers
    requires id < |t.slots|
  {
    var slots := t.slots[id := t.slots[id].(live := false)];
    t.(slots := slots, ticking := t.ticking && !Empty(slots))
  }

  function Act(t: Timers, a: Action): (t1: Timers)
    requires Sound(t)
    ensures Sound(t1) && t1.fired == t.fired
  {
    if a.id >= AT_MAX then t
    else
      match a
      case Schedule(id, delay) => t.(slots := t.slots[id := Slot(0, delay, true)], ticking := true)
      case Postpone(id) => t.(slots := t.slots[id := t.slots[id].(current := 0)])
      case Cancel(id) => Release(t, id)
  }

  function ActAll(t: Timers, script: seq<Action>): (t1: Timers)
    requires Sound(t)
    ensures Sound(t1) && t1.fired == t.fired
    decreases |script|
  {
    if script == [] then t else ActAll(Act(t, script[0]), script[1..])
  }

  /** `verify` at one slot; the callback runs before its slot is cleared. */
  function VisitSlot(t: Timers, id: nat, script: seq<Action>): (t1: Timers)
    requires Sound(t) && id < AT_MAX
    ensures Sound(t1)
  {
    var slot := t.slots[id];
    if !slot.live then t
    else
      var ticked := t.(slots := t.slots[id := slot.(current := (slot.current + 1) % 256)]);
      if ticked.slots[id].current < slot.max then ticked
      else Release(ActAll(ticked.(fired := t.fired + [id]), script), id)
  }

  function Do(t: Timers, step: Step): (t1: Timers)
    requires Sound(t)
    ensures Sound(t1)
  {
    match step
    case Use(a) => Act(t, a)
    case Visit(id, script) => if id < AT_MAX then VisitSlot(t, id, script) else t
  }

  function After(t: Timers, steps: seq<Step>): (t1: Timers)
    requires Sound(t)
    ensures Sound(t1)
    decreases |steps|
  {
    if steps == [] then t else After(Do(t, steps[0]), steps[1..])
  }

  /** The timer interrupt's work: every slot in turn; scripts[id] is what callback id does. */
  function Verify(scripts: seq<seq<Action>>): seq<Step>
    requires |scripts| == AT_MAX
  {
    seq(AT_MAX, id requires 0 <= id < AT_MAX => Visit(id, scripts[id]))
  }

  // ----- the cron slot -----

  /** The cron slot is enabled exactly while some callback is pending. */
  predicate TicksRight(t: Timers) {
    t.ticking <==> !Empty(t.slots)
  }

  lemma ActTicks(t: Timers, a: Action)
    requires Sound(t) && TicksRight(t)
    ensures TicksRight(Act(t, a))
  {
    if a.Schedule? && a.id < AT_MAX {
      assert Act(t, a).slots[a.id].live;
    }
    if a.Postpone? && a.id < AT_MAX {
      assert forall i :: 0 <= i < AT_MAX ==> Act(t, a).slots[i].live == t.slots[i].live;
    }
  }

  lemma {:induction false} ActAllTicks(t: Timers, script: seq<Action>)
    requires Sound(t) && TicksRight(t)
    ensures TicksRight(ActAll(t, script))
    decreases |script|
  {
    if script != [] {
      ActTicks(t, script[0]);
      ActAllTicks(Act(t, script[0]), script[1..]);
    }
  }

  lemma VisitTicks(t: Timers, id: nat, script: seq<Action>)
    requires Sound(t) && TicksRight(t) && id < AT_MAX
    ensures TicksRight(VisitSlot(t, id, script))
  {
    var slot := t.slots[id];
    if slot.live {
      var ticked := t.(slots := t.slots[id := slot.(current := (slot.current + 1) % 256)]);
      assert ticked.slots[id].live;
      ActAllTicks(ticked.(fired := t.fired + [id]), script);
    }
  }

  /** The cron slot is live exactly while some callback is pending, in every run, whatever the
      callbacks do. */
  lemma {:induction false} CronSlotLive(t: Timers, steps: seq<Step>)
    requires Sound(t) && TicksRight(t)
    ensures TicksRight(After(t, steps))
    decreases |steps|
  {
    if steps != [] {
      match steps[0] {
        case Use(a) => ActTicks(t, a);
        case Visit(id, script) => if id < AT_MAX { VisitTicks(t, id, script); }
      }
      CronSlotLive(Do(t, steps[0]), steps[1..]);
    }
  }

  // ----- one shot -----

  /** Nobody schedules, postpones or cancels `id`. */
  predicate Spares(script: seq<Action>, id: nat) {
    forall i :: 0 <= i < |script| ==> script[i].id != id
  }

  predicate Leaves(step: Step, id: nat) {
    match step
    case Use(a) => a.id != id
    case Visit(_, script) => Spares(script, id)
  }

  function Visits(steps: seq<Step>, id: nat): nat
    decreases |steps|
  {
    if steps == [] then 0 else (if steps[0].Visit? && steps[0].id == id then 1 else 0) + Visits(steps[1..], id)
  }

  /** How often the callback of `id` has been invoked. */
  function Shots(fired: seq<nat>, id: nat): nat
    decreases |fired|
  {
    if fired == [] then 0
    else Shots(fired[..|fired| - 1], id) + if fired[|fired| - 1] == id then 1 else 0
  }

  /** Visits still to come before the slot fires. */
  function Left(slot: Slot): int {
    Delay(slot.max) - slot.current
  }

  lemma {:induction false} ActAllSpares(t: Timers, script: seq<Action>, id: nat)
    requires Sound(t) && id < AT_MAX && Spares(script, id)
    ensures ActAll(t, script).slots[id] == t.slots[id]
    decreases |script|
  {
    if script != [] {
      ActAllSpares(Act(t, script[0]), script[1..], id);
    }
  }

  lemma ShotsMore(fired: seq<nat>, shot: nat, id: nat)
    ensures Shots(fired + [shot], id) == Shots(fired, id) + if shot == id then 1 else 0
  {
    assert (fired + [shot])[..|fired|] == fired;
  }

  /** A visit of slot `at`, seen from slot `id`. */
  lemma VisitCounts(t: Timers, at: nat, script: seq<Action>, id: nat)
    requires Sound(t) && id < AT_MAX && at < AT_MAX && t.slots[at].live && Spares(script, id)
    ensures var t1 := VisitSlot(t, at, script);
            var next := (t.slots[at].current + 1) % 256;
            if next < t.slots[at].max then
              t1.fired == t.fired
              && t1.slots[id] == if id == at then t.slots[at].(current := next) else t.slots[id]
            else
              t1.fired == t.fired + [at] && (id == at ==> !t1.slots[id].live)
              && (id != at ==> t1.slots[id] == t.slots[id])
  {
    var next := (t.slots[at].current + 1) % 256;
    var ticked := t.(slots := t.slots[at := t.slots[at].(current := next)]);
    ActAllSpares(ticked.(fired := t.fired + [at]), script, id);
  }

  /** One step that leaves `id` alone: only its own visit counts, and the last one fires. */
  lemma StepCounts(t: Timers, step: Step, id: nat)
    requires Sound(t) && id < AT_MAX && Leaves(step, id)
    requires t.slots[id].live ==> Left(t.slots[id]) > 0
    ensures var was := t.slots[id];
            var slot := Do(t, step).slots[id];
            var shots := Shots(Do(t, step).fired, id) - Shots(t.fired, id);
            if step.Visit? && step.id == id && was.live then
              (if Left(was) == 1 then shots == 1 && !slot.live
               else shots == 0 && slot.live && 0 < Left(slot) == Left(was) - 1)
            else shots == 0 && slot == was
  {
    if step.Visit? && step.id < AT_MAX && t.slots[step.id].live {
      VisitCounts(t, step.id, step.script, id);
      ShotsMore(t.fired, step.id, id);
    }
  }

  /** While nobody touches `id`, its callback is invoked exactly once, at the visit its count
      has left, and never when it is not live, whatever the other ids and callbacks do. */
  lemma {:induction false} Countdown(t: Timers, steps: seq<Step>, id: nat)
    requires Sound(t) && id < AT_MAX && (forall i :: 0 <= i < |steps| ==> Leaves(steps[i], id))
    requires t.slots[id].live ==> Left(t.slots[id]) > 0
    ensures var was := t.slots[id];
            var slot := After(t, steps).slots[id];
            var shots := Shots(After(t, steps).fired, id) - Shots(t.fired, id);
            if was.live && Visits(steps, id) >= Left(was) then shots == 1 && !slot.live
            else shots == 0 && slot.live == was.live && (slot.live ==> Left(slot) == Left(was) - Visits(steps, id))
    decreases |steps|
  {
    if steps != [] {
      StepCounts(t, steps[0], id);
      Countdown(Do(t, steps[0]), steps[1..], id);
    }
  }

  /** A scheduled callback is invoked exactly once, at the max(1, delay)-th visit after it was
      last scheduled. */
  lemma OneShot(t: Timers, id: nat, delay: byte, steps: seq<Step>)
    requires Sound(t) && id < AT_MAX && (forall i :: 0 <= i < |steps| ==> Leaves(steps[i], id))
    ensures Shots(After(Act(t, Schedule(id, delay)), steps).fired, id) - Shots(t.fired, id)
            == if Visits(steps, id) >= Delay(delay) then 1 else 0
  {
    Countdown(Act(t, Schedule(id, delay)), steps, id);
  }

  /** Postponing starts the count anew, and keeps a slot that is not live as it is. */
  lemma PostponedShot(t: Timers, id: nat, steps: seq<Step>)
    requires Sound(t) && id < AT_MAX && (forall i :: 0 <= i < |steps| ==> Leaves(steps[i], id))
    ensures Shots(After(Act(t, Postpone(id)), steps).fired, id) - Shots(t.fired, id)
            == if t.slots[id].live && Visits(steps, id) >= Delay(t.slots[id].max) then 1 else 0
  {
    Countdown(Act(t, Postpone(id)), steps, id);
  }

  /** A cancelled callback is never invoked. */
  lemma CancelledNever(t: Timers, id: nat, steps: seq<Step>)
    requires Sound(t) && id < AT_MAX && (forall i :: 0 <= i < |steps| ==> Leaves(steps[i], id))
    ensures Shots(After(Act(t, Cancel(id)), steps).fired, id) == Shots(t.fired, id)
  {
    Countdown(Act(t, Cancel(id)), steps, id);
  }

  /** Every `verify` visits every slot once. */
  lemma VerifyVisits(scripts: seq<seq<Action>>, id: nat)
    requires |scripts| == AT_MAX && id < AT_MAX
    ensures Visits(Verify(scripts), id) == 1
  {
    var steps := Verify(scripts);
    assert |steps| == AT_MAX && forall i :: 0 <= i < AT_MAX ==> steps[i].Visit? && steps[i].id == i;
    assert Visits(steps[4..], id) == 0;
    assert steps[3..][1..] == steps[4..] && steps[2..][1..] == steps[3..] && steps[1..][1..] == steps[2..];
    assert Visits(steps[3..], id) == if id == 3 then 1 else 0;
    assert Visits(steps[2..], id) == if id >= 2 then 1 else 0;
    assert Visits(steps[1..], id) == if id >= 1 then 1 else 0;
  }

  /** A callback's own slot is cleared after it, whatever it did to it: even one that schedules
      its own id is invoked once, and not again before somebody else schedules it. */
  lemma OwnScheduleLost(t: Timers, id: nat, script: seq<Action>, steps: seq<Step>)
    requires Sound(t) && id < AT_MAX && t.slots[id].live && Left(t.slots[id]) == 1
    requires forall i :: 0 <= i < |steps| ==> Leaves(steps[i], id)
    ensures Shots(After(VisitSlot(t, id, script), steps).fired, id) == Shots(t.fired, id) + 1
  {
    var t1 := VisitSlot(t, id, script);
    assert t1.fired == t.fired + [id] && !t1.slots[id].live;
    ShotsMore(t.fired, id, id);
    Countdown(t1, steps, id);
  }
}
