/** Where the menu fails its user, with the inputs and the exact conditions: APPLY turned while a
    name is shown, answers that come when the menu is closed, and the Pi's first playlist answer. */
module MenuLimits {
  import opened Constants
  import opened MenuModel
  import opened MenuRuns
  import opened MenuLog
  import opened MenuTheorems

  // ----- APPLY while a name is shown -----

  /** A playlist is chosen, its name is shown, and APPLY is turned clockwise. */
  const STALE_RUN: seq<Event> := [
    Rotor(ROTOR_PLAYLIST, true),
    Answer(PARAMETER_PLAYLIST, 5, 1, 10),
    Rotor(ROTOR_PLAYLIST, true),
    TagTimeout,
    Name(PARAMETER_PLAYLIST, 6),
    Rotor(ROTOR_APPLY, true),
    Timeout]

  const ASKED: seq<Message> := [Suspend, QueryNumber(PARAMETER_PLAYLIST)]
  const QUERIED: seq<Message> := ASKED + [QueryName(PARAMETER_PLAYLIST, 6)]
  const NAMED: seq<Message> := QUERIED + [Resume]

  /** The menu on the way: the playlist knob was turned, and APPLY never before. */
  predicate OnPlaylist(m: Menu, state: State, now: byte, log: seq<Message>) {
    && Sound(m) && m.connected && m.state == state && m.secondary == PARAM_TRACK
    && VALUE_TRACK !in m.known && m.log == log
    && m.param == (if state == Apply then PARAM_APPLY else PARAM_PLAYLIST)
    && m.values[VALUE_PLAYLIST].now == now
  }

  /** Where the run is after `n` events. */
  predicate Stage(m: Menu, n: nat)
    requires Sound(m)
  {
    if n == 0 then Closed(m, Radio)
    else if n == 1 then OnPlaylist(m, Value, 0, ASKED)
    else if n == 2 then
      OnPlaylist(m, Value, 5, ASKED) && VALUE_PLAYLIST in m.known && m.values[VALUE_PLAYLIST].high == 10
    else if n == 3 then
      OnPlaylist(m, Value, 6, ASKED) && m.tagParam == PARAM_PLAYLIST && m.tagValue == 6 && m.tagTimer.Some?
    else if n == 4 then OnPlaylist(m, Value, 6, QUERIED) && m.tagParam == PARAM_PLAYLIST && m.tagValue == 6
    else if n == 5 then OnPlaylist(m, Tag, 6, NAMED)
    else if n == 6 then OnPlaylist(m, Apply, 6, NAMED + [Suspend])
    else m.state == Idle && m.log == NAMED + [Suspend] + [Resume]
  }

  lemma StaleOpens(m: Menu)
    requires Closed(m, Radio)
    ensures OnPlaylist(Do(m, STALE_RUN[0]), Value, 0, ASKED)
  {
    var m0 := Opened(m, ROTOR_PLAYLIST);
    assert m0.log == [] + [Suspend] == [Suspend];
    assert SetState(m0, Value) == SetParamRange(m0, Value).(state := Value);
  }

  lemma StaleTurns(m: Menu)
    requires OnPlaylist(m, Value, 5, ASKED) && VALUE_PLAYLIST in m.known && m.values[VALUE_PLAYLIST].high == 10
    ensures Sound(Do(m, STALE_RUN[2])) && Stage(Do(m, STALE_RUN[2]), 3)
  {
    assert Do(m, STALE_RUN[2]) == Schedule(ScheduleTag(SelectValue(m, true)), DELAY_SELECT);
  }

  lemma StaleIsNamed(m: Menu)
    requires OnPlaylist(m, Value, 6, QUERIED) && m.tagParam == PARAM_PLAYLIST && m.tagValue == 6
    ensures OnPlaylist(Do(m, STALE_RUN[4]), Tag, 6, NAMED)
  {
    assert Do(m, STALE_RUN[4]) == SetState(Schedule(m, DELAY_READ), Tag);
  }

  lemma StaleStops(m: Menu, home: Mode)
    requires OnPlaylist(m, Apply, 6, NAMED + [Suspend]) && Session(m, home)
    ensures Do(m, STALE_RUN[6]).state == Idle && Do(m, STALE_RUN[6]).log == NAMED + [Suspend] + [Resume]
  {
    assert Chosen(m) == PARAM_TRACK && TakeEffect(m, PARAM_TRACK) == m;
  }

  lemma StaleStep(m: Menu, n: nat)
    requires Sound(m) && Session(m, Radio) && n < |STALE_RUN| && Stage(m, n)
    ensures Legal(m, STALE_RUN[n]) && Sound(Do(m, STALE_RUN[n])) && Stage(Do(m, STALE_RUN[n]), n + 1)
  {
    if n == 0 {
      StaleOpens(m);
    } else if n == 2 {
      StaleTurns(m);
    } else if n == 4 {
      StaleIsNamed(m);
    } else if n == 5 {
      ApplyFrame(m, Radio, true);
      SetStateFrame(m, Apply);
    } else if n == 6 {
      StaleStops(m, Radio);
    }
  }

  lemma LeadsOn(m: Menu, home: Mode, past: Past, events: seq<Event>, m2: Menu, past2: Past)
    requires Kept(m, home, past) && events != [] && Legal(m, events[0])
    requires Kept(Do(m, events[0]), home, Note(m, past, events[0]))
    requires Leads(Do(m, events[0]), home, Note(m, past, events[0]), events[1..], m2, past2)
    ensures Leads(m, home, past, events, m2, past2)
  {
  }

  lemma {:induction false} StaleFrom(m: Menu, past: Past, n: nat) returns (m2: Menu, past2: Past)
    requires Kept(m, Radio, past) && n <= |STALE_RUN| && Stage(m, n)
    ensures Leads(m, Radio, past, STALE_RUN[n..], m2, past2)
    ensures Sound(m2) && Stage(m2, |STALE_RUN|)
    decreases |STALE_RUN| - n
  {
    if n == |STALE_RUN| {
      m2, past2 := m, past;
    } else {
      StaleStep(m, n);
      StepKeeps(m, Radio, past, STALE_RUN[n]);
      m2, past2 := StaleFrom(Do(m, STALE_RUN[n]), Note(m, past, STALE_RUN[n]), n + 1);
      assert STALE_RUN[n..][0] == STALE_RUN[n] && STALE_RUN[n..][1..] == STALE_RUN[n + 1..];
      LeadsOn(m, Radio, past, STALE_RUN[n..], m2, past2);
    }
  }

  /** From every closed menu in radio mode that run is legal; playlist 6 was chosen and applied,
      and the Pi is never told. */
  lemma StaleApply(m0: Menu) returns (m: Menu, past: Past)
    requires Closed(m0, Radio)
    ensures Leads(m0, Radio, Past([], map[]), STALE_RUN, m, past)
    ensures m.state == Idle
    ensures m.log == [Suspend, QueryNumber(PARAMETER_PLAYLIST), QueryName(PARAMETER_PLAYLIST, 6),
                      Resume, Suspend, Resume]
  {
    m, past := StaleFrom(m0, Past([], map[]), 0);
    assert STALE_RUN[0..] == STALE_RUN;
  }

  // ----- answers to a closed menu -----

  /** An answer or a name that the menu does not act on. */
  predicate Ignored(m: Menu, ev: Event) {
    match ev
    case Answer(parameter, _, _, _) =>
      parameter != PARAMETER_VOLUME && parameter != PARAMETER_TRACK && parameter != PARAMETER_PLAYLIST
    case Name(parameter, id) =>
      (parameter != PARAMETER_PLAYLIST && parameter != PARAMETER_TRACK)
      || ParamOf(parameter) != m.param || ParamOf(parameter) != m.tagParam || id != m.tagValue
    case _ => false
  }

  lemma IgnoredIsNothing(m: Menu, ev: Event)
    requires Sound(m) && (ev.Answer? || ev.Name?)
    ensures Ignored(m, ev) ==> Do(m, ev) == m
    ensures !Ignored(m, ev) ==>
              && Do(m, ev).timer.Some? && Do(m, ev).backup == m.backup
              && Do(m, ev).state == if ev.Answer? then m.state else Tag
  {
    if ev.Name? {
      SetStateFrame(Schedule(m, DELAY_READ), Tag);
    }
  }

  lemma LateValue(m: Menu, home: Mode, ev: Event)
    requires Shape(m, home) && m.state == Idle && ev.Answer? && !Ignored(m, ev)
    ensures Sound(Do(m, ev)) && Stop(Do(m, ev)).mode == MenuMode && Stop(Do(m, ev)).state == Idle
    ensures Stop(Do(m, ev)).log == m.log + (if m.connected then [Resume] else [])
  {
    var m1 := Do(m, ev);
    assert TakeEffect(m1, Chosen(m1)) == m1;
  }

  lemma LateName(m: Menu, home: Mode, ev: Event)
    requires Shape(m, home) && m.state == Idle && ev.Name? && !Ignored(m, ev)
    ensures Sound(Do(m, ev)) && Stop(Do(m, ev)).mode == MenuMode && Stop(Do(m, ev)).state == Idle
  {
    var m0 := Schedule(m, DELAY_READ);
    var m1 := SetState(m0, Tag);
    SetStateFrame(m0, Tag);
    SetStateFrame(m1, Value);
    TakeEffectFrame(Closing(m1), Chosen(Closing(m1)));
  }

  /** RESUME where nothing was suspended. */
  lemma LateResume(m: Menu, log: seq<Message>)
    requires PauseRight(m) && !m.drain && m.connected && log == m.log + [Resume]
    ensures Paused(log) == None
  {
    SendLog(m, Resume, 0);
  }

  lemma LateTimeout(m: Menu, home: Mode, ev: Event)
    requires Shape(m, home) && PauseRight(m) && m.state == Idle && (ev.Answer? || ev.Name?) && !Ignored(m, ev)
    ensures Sound(Do(m, ev)) && Do(Do(m, ev), Timeout).state == Idle && Do(Do(m, ev), Timeout).mode == MenuMode
    ensures ev.Answer? && m.connected ==> Paused(Do(Do(m, ev), Timeout).log) == None
  {
    if ev.Answer? {
      LateValue(m, home, ev);
      if m.connected {
        LateResume(m, Do(Do(m, ev), Timeout).log);
      }
    } else {
      LateName(m, home, ev);
    }
  }

  /** A closed menu stays closed on an answer or a name if and only if it ignores it.  One that it
      acts on starts the closing timer, and when that fires the device is in the menu mode, which
      is neither watch nor radio; after an answer a connected Pi gets a RESUME that no SUSPEND
      went before. */
  lemma LateAnswer(m: Menu, home: Mode, past: Past, ev: Event)
    requires Reached(m, home, past) && m.state == Idle && (ev.Answer? || ev.Name?)
    ensures Sound(m) && Sound(Do(m, ev))
    ensures Session(Do(m, ev), home) <==> Ignored(m, ev)
    ensures Ignored(m, ev) ==> Do(m, ev) == m
    ensures !Ignored(m, ev) ==>
              && Legal(Do(m, ev), Timeout)
              && Do(Do(m, ev), Timeout).state == Idle && Do(Do(m, ev), Timeout).mode == MenuMode != home
    ensures !Ignored(m, ev) && ev.Answer? && m.connected ==> Paused(Do(Do(m, ev), Timeout).log) == None
  {
    ReachedKept(m, home, past);
    IgnoredIsNothing(m, ev);
    if !Ignored(m, ev) {
      LateTimeout(m, home, ev);
    }
  }

  // ----- the Pi's first playlist answer -----

  /** A freshly started Pi answers a playlist query with its stored id, 0, and the player's range,
      which begins at 1 as soon as there is a playlist. */
  function FirstRun(n: byte): seq<Event> {
    [Rotor(ROTOR_PLAYLIST, true), Answer(PARAMETER_PLAYLIST, 0, 1, n)]
  }

  lemma FirstTurn(m: Menu, clockwise: bool)
    requires Sound(m) && m.state == Value && m.connected && VALUE_PLAYLIST in m.known
    ensures Sound(Do(m, Rotor(ROTOR_PLAYLIST, clockwise)))
    ensures Do(m, Rotor(ROTOR_PLAYLIST, clockwise)).values
            == m.values[VALUE_PLAYLIST := Turned(m.values[VALUE_PLAYLIST], clockwise)]
  {
    ClickFrame(m, ROTOR_PLAYLIST, clockwise);
  }

  /** After that answer, in every closed menu's first session, the value displayed is outside its
      range.  Turning the knob back leaves it there, and one click clockwise brings it in. */
  lemma FirstSession(m0: Menu, n: byte) returns (m: Menu, past: Past)
    requires Closed(m0, Radio) && n >= 1
    ensures Leads(m0, Radio, Past([], map[]), FirstRun(n), m, past)
    ensures Sound(m) && m.state == Value && m.values[VALUE_PLAYLIST] == Range(1, n, 0, 0)
    ensures var m1 := Do(m, Rotor(ROTOR_PLAYLIST, false));
            Sound(m1) && m1.values[VALUE_PLAYLIST] == Range(1, n, 0, 0)
    ensures var m1 := Do(m, Rotor(ROTOR_PLAYLIST, true));
            Sound(m1) && m1.values[VALUE_PLAYLIST] == Range(1, n, 0, 1)
  {
    var none := Past([], map[]);
    var run := FirstRun(n);
    StepKeeps(m0, Radio, none, run[0]);
    StaleOpens(m0);
    var m1, past1 := Do(m0, run[0]), Note(m0, none, run[0]);
    StepKeeps(m1, Radio, past1, run[1]);
    m, past := Do(m1, run[1]), Note(m1, past1, run[1]);
    FirstAnswer(m1, n);
    assert run[1..][0] == run[1] && run[1..][1..] == [];
    LeadsOn(m1, Radio, past1, run[1..], m, past);
    LeadsOn(m0, Radio, none, run, m, past);
    FirstTurn(m, false);
    FirstTurn(m, true);
  }

  lemma FirstAnswer(m: Menu, n: byte)
    requires OnPlaylist(m, Value, 0, ASKED)
    ensures var m1 := Do(m, Answer(PARAMETER_PLAYLIST, 0, 1, n));
            && Sound(m1) && m1.state == Value && m1.connected && VALUE_PLAYLIST in m1.known
            && m1.values[VALUE_PLAYLIST] == Range(1, n, 0, 0)
  {
  }
}
