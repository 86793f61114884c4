/** The timer stack as it runs: src/avr/cron.c, at.c, heartbeat.c and mode.c, each method
    having the effect of the function that specifies it. */
module TimerObjects {
  import opened Constants
  import opened RingBuffer
  import CronTimer
  import AtTimers
  import HeartbeatTimer
  import ModeControl

  class Cron {
    const callbacks: array<bool>
    const factors: array<byte>
    const counters: array<byte>
    const queue: Ring
    var timerOn: bool

    ghost function Repr(): set<object> {
      {this, callbacks, factors, counters, queue, queue.data}
    }

    ghost predicate Valid()
      reads Repr()
    {
      callbacks.Length == factors.Length == counters.Length == CronTimer.CRON_ID_MAX
      && factors != counters && factors != queue.data && counters != queue.data
      && queue.data.Length == CronTimer.BUF_MAX && queue.Valid()
    }

    ghost function View(): (c: CronTimer.Cron)
      reads Repr()
      requires Valid()
      ensures CronTimer.Sound(c)
    {
      CronTimer.Cron(callbacks[..], factors[..], counters[..], queue.View(), timerOn)
    }

    constructor ()
      ensures Valid() && fresh(Repr())
      ensures forall i :: 0 <= i < CronTimer.CRON_ID_MAX ==> !callbacks[i] && factors[i] == counters[i] == 0
      ensures queue.View() == EMPTY && !timerOn
    {
      callbacks := new bool[CronTimer.CRON_ID_MAX](_ => false);
      factors := new byte[CronTimer.CRON_ID_MAX](_ => 0);
      counters := new byte[CronTimer.CRON_ID_MAX](_ => 0);
      queue := new Ring(CronTimer.BUF_MAX);
      timerOn := false;
    }

    method TickOne(i: nat)
      requires Valid() && i < CronTimer.CRON_ID_MAX
      modifies counters, queue`finish, queue.data
      ensures Valid() && View() == CronTimer.TickOne(old(View()), i)
    {
      if !callbacks[i] {
        return;
      }
      counters[i] := CronTimer.Inc(counters[i]);
      if counters[i] >= factors[i] {
        counters[i] := 0;
        var ok := queue.ByteFill(queue.start, i, 0);
      }
    }

    /** The timer interrupt. */
    method InterruptFunction()
      requires Valid()
      modifies counters, queue`finish, queue.data
      ensures Valid() && View() == CronTimer.Do(old(View()), CronTimer.Tick)
    {
      for i := 0 to CronTimer.CRON_ID_MAX
        invariant Valid()
        invariant CronTimer.TickFrom(View(), i) == CronTimer.TickFrom(old(View()), 0)
      {
        TickOne(i);
      }
    }

    method IsRequired() returns (required: bool)
      requires Valid()
      ensures required == CronTimer.Required(callbacks[..])
    {
      required := false;
      for i := 0 to CronTimer.CRON_ID_MAX
        invariant !required && forall k :: 0 <= k < i ==> !callbacks[k]
      {
        if callbacks[i] {
          required := true;
          assert callbacks[..][i];
          break;
        }
      }
    }

    method Enable(id: nat, factor: byte, callback: bool) returns (ok: bool)
      requires Valid()
      modifies this, callbacks, factors, counters
      ensures Valid() && ok == (id < CronTimer.CRON_ID_MAX)
      ensures View() == CronTimer.EnableSlot(old(View()), id, factor, callback)
    {
      if id >= CronTimer.CRON_ID_MAX {
        return false;
      }
      callbacks[id], factors[id], counters[id] := callback, factor, 0;
      var required := IsRequired();
      if required {
        timerOn := true;
      }
      ok := true;
    }

    method Disable(id: nat) returns (ok: bool)
      requires Valid()
      modifies this, callbacks, factors, counters
      ensures Valid() && ok == (id < CronTimer.CRON_ID_MAX)
      ensures View() == CronTimer.DisableSlot(old(View()), id)
    {
      if id >= CronTimer.CRON_ID_MAX {
        return false;
      }
      callbacks[id], factors[id], counters[id] := false, 0, 0;
      var required := IsRequired();
      if !required {
        timerOn := false;
      }
      ok := true;
    }

    /** The id of the callback that is due, for the caller to invoke. */
    method Try() returns (invoked: Option<byte>)
      requires Valid()
      modifies queue
      ensures Valid() && View() == CronTimer.Do(old(View()), CronTimer.Try)
      ensures invoked == CronTimer.Invoked(old(View()))
    {
      invoked := queue.ByteDrain();
      if invoked.Some? && (invoked.value >= CronTimer.CRON_ID_MAX || !callbacks[invoked.value]) {
        invoked := None;
      }
    }
  }

  /** The four one-shot slots; `ticking` is the cron slot that calls Verify. */
  class At {
    const slots: array<AtTimers.Slot>
    var ticking: bool
    ghost var fired: seq<nat>

    ghost predicate Valid()
      reads this
    {
      slots.Length == AtTimers.AT_MAX
    }

    ghost function View(): (t: AtTimers.Timers)
      reads this, slots
      requires Valid()
      ensures AtTimers.Sound(t)
    {
      AtTimers.Timers(slots[..], ticking, fired)
    }

    constructor ()
      ensures Valid() && fresh(slots) && AtTimers.TicksRight(View()) && !ticking && fired == []
    {
      slots := new AtTimers.Slot[AtTimers.AT_MAX](_ => AtTimers.Slot(0, 0, false));
      ticking, fired := false, [];
    }

    method Empty() returns (empty: bool)
      requires Valid()
      ensures empty == AtTimers.Empty(slots[..])
    {
      empty := true;
      for id := 0 to AtTimers.AT_MAX
        invariant empty && forall k :: 0 <= k < id ==> !slots[k].live
      {
        if slots[id].live {
          empty := false;
          assert slots[..][id].live;
          break;
        }
      }
    }

    /** Clears a slot, and the cron slot after the last one. */
    method Release(id: nat)
      requires Valid() && id < AtTimers.AT_MAX
      modifies this`ticking, slots
      ensures View() == AtTimers.Release(old(View()), id)
    {
      slots[id] := slots[id].(live := false);
      var empty := Empty();
      if empty {
        ticking := false;
      }
    }

    method Act(a: AtTimers.Action)
      requires Valid()
      modifies this`ticking, slots
      ensures View() == AtTimers.Act(old(View()), a)
    {
      if a.id >= AtTimers.AT_MAX {
        return;
      }
      match a
      case Schedule(id, delay) =>
        slots[id] := AtTimers.Slot(0, delay, true);
        ticking := true;
      case Postpone(id) => slots[id] := slots[id].(current := 0);
      case Cancel(id) => Release(id);
    }

    method ActAll(script: seq<AtTimers.Action>)
      requires Valid()
      modifies this`ticking, slots
      ensures View() == AtTimers.ActAll(old(View()), script)
    {
      for i := 0 to |script|
        invariant AtTimers.ActAll(View(), script[i..]) == AtTimers.ActAll(old(View()), script)
      {
        assert script[i..][0] == script[i] && script[i..][1..] == script[i + 1..];
        Act(script[i]);
      }
    }

    method Visit(id: nat, script: seq<AtTimers.Action>)
      requires Valid() && id < AtTimers.AT_MAX
      modifies this, slots
      ensures View() == AtTimers.VisitSlot(old(View()), id, script)
    {
      if !slots[id].live {
        return;
      }
      slots[id] := slots[id].(current := (slots[id].current + 1) % 256);
      if slots[id].current >= slots[id].max {
        fired := fired + [id];
        ActAll(script);
        Release(id);
      }
    }

    /** The cron callback; scripts[id] is what the callback in slot `id` does to the timers. */
    method Verify(scripts: seq<seq<AtTimers.Action>>)
      requires Valid() && |scripts| == AtTimers.AT_MAX
      modifies this, slots
      ensures View() == AtTimers.After(old(View()), AtTimers.Verify(scripts))
    {
      ghost var steps := AtTimers.Verify(scripts);
      for id := 0 to AtTimers.AT_MAX
        invariant AtTimers.After(View(), steps[id..]) == AtTimers.After(old(View()), steps)
      {
        assert steps[id..][0] == AtTimers.Visit(id, scripts[id]) && steps[id..][1..] == steps[id + 1..];
        Visit(id, scripts[id]);
      }
    }

    method IsEmpty(id: nat) returns (empty: bool)
      requires Valid()
      ensures empty == (id < AtTimers.AT_MAX && !slots[id].live)
    {
      empty := id < AtTimers.AT_MAX && !slots[id].live;
    }
  }

  /** The mode, and the heartbeat that ends the radio mode. */
  class Station {
    const cron: Cron
    var mode: Mode
    var connected: bool
    var misses: byte
    var max: byte
    ghost var entered: seq<Mode>
    ghost var beats: seq<HeartbeatTimer.Beat>

    ghost function Repr(): set<object> {
      {this} + cron.Repr()
    }

    ghost predicate Valid()
      reads Repr()
    {
      this !in cron.Repr() && cron.Valid()
    }

    ghost function View(): (s: ModeControl.Station)
      reads Repr()
      requires Valid()
      ensures ModeControl.Sound(s)
    {
      ModeControl.Station(mode, connected, misses, max, cron.View(), entered, beats)
    }

    constructor (cron: Cron)
      requires cron.Valid() && !cron.callbacks[ModeControl.CRON_ID_FLUSH]
      requires !cron.callbacks[ModeControl.CRON_ID_HEARTBEAT]
      ensures this.cron == cron && Valid() && ModeControl.Right(View()) && mode == MenuMode && !connected
    {
      this.cron := cron;
      mode, connected, misses, max, entered, beats := MenuMode, false, 0, 0, [], [];
    }

    method Confirm()
      requires Valid()
      modifies this`misses
      ensures Valid() && View() == ModeControl.Do(old(View()), ModeControl.Confirmed)
    {
      misses := 0;
    }

    method HeartStart(delay: byte, limit: byte)
      requires Valid()
      modifies this`misses, this`max, cron, cron.callbacks, cron.factors, cron.counters
      ensures Valid() && View() == ModeControl.HeartStart(old(View()), delay, limit)
    {
      misses := 0;
      max := CronTimer.Inc(limit);
      var ok := cron.Enable(ModeControl.CRON_ID_HEARTBEAT, delay, true);
    }

    /** Stops what runs in the current mode. */
    method Quit()
      requires Valid()
      modifies cron, cron.callbacks, cron.factors, cron.counters
      ensures Valid()
      ensures cron.View() == CronTimer.DisableSlot(
                CronTimer.DisableSlot(old(cron.View()), ModeControl.CRON_ID_HEARTBEAT), ModeControl.CRON_ID_FLUSH)
    {
      var ok := cron.Disable(ModeControl.CRON_ID_HEARTBEAT);
      ok := cron.Disable(ModeControl.CRON_ID_FLUSH);
    }

    method ModeSet(newMode: Mode)
      requires Valid()
      modifies this, cron, cron.callbacks, cron.factors, cron.counters
      ensures Valid() && View() == ModeControl.ModeSet(old(View()), newMode)
    {
      if mode == newMode {
        return;
      }
      Quit();
      mode, entered := newMode, entered + [newMode];
      if mode == Watch {
        connected := false;
      } else if mode == Radio {
        var ok := cron.Enable(ModeControl.CRON_ID_FLUSH, ModeControl.SLAVE_DELAY, true);
        HeartStart(ModeControl.HB_DELAY, ModeControl.HB_MISS);
        connected := true;
      }
    }

    /** The heartbeat's cron callback; a provocation raises the interrupt line. */
    method Verify() returns (provoked: bool)
      requires Valid() && cron.callbacks[ModeControl.CRON_ID_HEARTBEAT]
      modifies this, cron, cron.callbacks, cron.factors, cron.counters
      ensures Valid() && View() == ModeControl.HeartVerify(old(View()))
      ensures provoked == (HeartbeatTimer.VerifyHeart(ModeControl.HeartOf(old(View()))).1 == HeartbeatTimer.Provoke)
    {
      provoked := false;
      misses := CronTimer.Inc(misses);
      if misses >= max {
        beats := beats + [HeartbeatTimer.Report];
        var ok := cron.Disable(ModeControl.CRON_ID_HEARTBEAT);
        ModeSet(Watch);
        return;
      }
      provoked := misses > HeartbeatTimer.PROVOKE_LIMIT;
      beats := beats + [if provoked then HeartbeatTimer.Provoke else HeartbeatTimer.Quiet];
    }
  }
}
