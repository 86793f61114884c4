/** What the menu says to the Pi over every run: SUSPEND and RESUME alternate, each value is
    asked for once a session, and a change is sent only of a value asked for and answered. */
module MenuLog {
  import opened Constants
  import opened MenuModel
  import opened MenuRuns

  /** Whether the messages leave the Pi suspended; None once SUSPEND or RESUME came twice in a row. */
  function Paused(log: seq<Message>): Option<bool>
    decreases |log|
  {
    if log == [] then Some(false)
    else PauseStep(Paused(log[..|log| - 1]), log[|log| - 1])
  }

  function PauseStep(p: Option<bool>, message: Message): Option<bool> {
    if message == Suspend then if p == Some(false) then Some(true) else None
    else if message == Resume then if p == Some(true) then Some(false) else None
    else p
  }

  /** How often a value was asked for. */
  function Asks(log: seq<Message>, parameter: byte): nat
    decreases |log|
  {
    if log == [] then 0
    else Asks(log[..|log| - 1], parameter) + if log[|log| - 1] == QueryNumber(parameter) then 1 else 0
  }

  lemma SendLog(m: Menu, message: Message, parameter: byte)
    ensures Paused(Send(m, message).log)
            == (if m.connected then PauseStep(Paused(m.log), message) else Paused(m.log))
    ensures Asks(Send(m, message).log, parameter)
            == Asks(m.log, parameter) + (if m.connected && message == QueryNumber(parameter) then 1 else 0)
  {
    if m.connected {
      assert (m.log + [message])[..|m.log|] == m.log;
    }
  }

  /** The Pi is suspended exactly while the display drains for a connected menu. */
  predicate PauseRight(m: Menu) {
    Paused(m.log) == Some(m.drain && m.connected)
  }

  // ----- what each function says -----

  lemma QueryLog(m: Menu, parameter: byte)
    ensures Paused(QuerySource(m).log) == Paused(m.log)
    ensures Asks(QuerySource(m).log, parameter)
            == Asks(m.log, parameter)
               + (if m.connected && QuerySource(m).asked != m.asked && ParameterOf(m.param) == parameter then 1 else 0)
  {
    SendLog(m, QueryNumber(ParameterOf(m.param)), parameter);
    if FromPi(m.param) && ValueId(m.param) !in m.known + m.asked {
      assert ValueId(m.param) in QuerySource(m).asked && ValueId(m.param) !in m.asked;
    }
  }

  lemma SwitchTagLog(m: Menu, home: Mode, state: State, parameter: byte)
    requires Open(m, home) && PauseRight(m) && m.state != state && (state == Tag ==> home == Radio)
    ensures PauseRight(SwitchTag(m, state))
    ensures Asks(SwitchTag(m, state).log, parameter) == Asks(m.log, parameter)
  {
    if m.state == Tag {
      SendLog(m, Suspend, parameter);
    } else if state == Tag {
      SendLog(m.(drain := false), Resume, parameter);
    }
  }

  lemma SetStateSays(m: Menu, state: State)
    requires m.state != state
    ensures var m0, m1 := SwitchTag(m, state), SetState(m, state);
            m1.log == m0.log && m1.drain == m0.drain && m1.connected == m0.connected
  {
  }

  lemma SetStateLog(m: Menu, home: Mode, state: State, parameter: byte)
    requires Open(m, home) && PauseRight(m) && state != Idle && (state == Tag ==> home == Radio)
    ensures PauseRight(SetState(m, state))
    ensures Asks(SetState(m, state).log, parameter) == Asks(m.log, parameter)
  {
    if m.state != state {
      SwitchTagLog(m, home, state, parameter);
      SetStateSays(m, state);
    }
  }

  lemma StartLog(m: Menu, rotor: nat, parameter: byte)
    requires m.state == Idle && rotor < ROTOR_APPLY && PauseRight(m) && !m.drain
    ensures PauseRight(Start(m, rotor))
    ensures Asks(Start(m, rotor).log, parameter) == Asks(m.log, parameter)
  {
    SendLog(ModeSet(Reset(m).(backup := m.mode), MenuMode), Suspend, parameter);
  }

  lemma ChangeLog(m: Menu, param: nat, parameter: byte)
    requires Sound(m)
    ensures Paused(SendChange(m, param).log) == Paused(m.log)
    ensures Asks(SendChange(m, param).log, parameter) == Asks(m.log, parameter)
  {
    var id := ValueId(param);
    var (sign, abs) := SignAbs(m.values[id].was, m.values[id].now);
    SendLog(m, ParamSet(ParameterOf(param), sign, abs), parameter);
  }

  lemma OrderLog(m: Menu, param: nat, parameter: byte)
    ensures Order(param).Some? ==>
              && Paused(Send(m, Order(param).value).log) == Paused(m.log)
              && Asks(Send(m, Order(param).value).log, parameter) == Asks(m.log, parameter)
  {
    if Order(param).Some? {
      SendLog(m, Order(param).value, parameter);
    }
  }

  lemma TakeEffectLog(m: Menu, param: nat, parameter: byte)
    requires Sound(m)
    ensures Paused(TakeEffect(m, param).log) == Paused(m.log)
    ensures Asks(TakeEffect(m, param).log, parameter) == Asks(m.log, parameter)
  {
    if FromPi(param) {
      ChangeLog(m, param, parameter);
    } else {
      OrderLog(m, param, parameter);
    }
  }

  lemma StopLog(m: Menu, home: Mode, parameter: byte)
    requires Shape(m, home) && m.state != Idle && PauseRight(m)
    ensures PauseRight(Stop(m))
    ensures Asks(Stop(m).log, parameter) == Asks(m.log, parameter)
  {
    SetStateLog(m, home, Value, parameter);
    SetStateOpen(m, home, Value);
    var m1 := Closing(m);
    TakeEffectFrame(m1, Chosen(m1));
    TakeEffectLog(m1, Chosen(m1), parameter);
    var m2 := TakeEffect(m1, Chosen(m1));
    SendLog(ModeSet(m2.(drain := false), m2.backup), Resume, parameter);
  }

  lemma ClickLog(m: Menu, rotor: nat, clockwise: bool, parameter: byte)
    requires Sound(m) && m.state == RotorState(rotor)
    ensures var m1 := Click(m, rotor, clockwise);
            && Paused(m1.log) == Paused(m.log)
            && Asks(m1.log, parameter)
               == Asks(m.log, parameter)
                  + (if m.connected && m1.asked != m.asked && ParameterOf(m1.param) == parameter then 1 else 0)
  {
    ClickFrame(m, rotor, clockwise);
    if m.state == Value {
      var param := RotorParam(m.connected, rotor);
      QueryLog(m.(param := param), parameter);
      var m1 := if m.param != param then QuerySource(m.(param := param)) else m;
      TurnFrame(m1, clockwise);
      TagFrame(SelectValue(m1, clockwise));
    }
  }

  /** From opening the menu to the message that asks for the value. */
  lemma RotorChangeLog(m: Menu, home: Mode, rotor: nat, clockwise: bool, parameter: byte)
    requires Shape(m, home) && PauseRight(m) && rotor <= ROTOR_APPLY && m.state != RotorState(rotor)
    requires m.state == Idle ==> rotor < ROTOR_APPLY
    ensures var m1 := Change(m, rotor, clockwise);
            && PauseRight(m1)
            && Asks(m1.log, parameter)
               == Asks(m.log, parameter)
                  + (if m1.connected && m1.asked != Opened(m, rotor).asked && ParameterOf(m1.param) == parameter
                     then 1 else 0)
  {
    OpenedKeeps(m, home, rotor);
    var m0 := Opened(m, rotor);
    if m.state == Idle {
      StartLog(m, rotor, parameter);
    }
    SetStateLog(m0, home, RotorState(rotor), parameter);
    SetStateFrame(m0, RotorState(rotor));
    ChangeFrame(m, rotor, clockwise);
    var m1 := SetState(m0, RotorState(rotor));
    if RotorState(rotor) == Value {
      var m2 := m1.(param := RotorParam(m1.connected, rotor));
      TurnFrame(m2, clockwise);
      QueryLog(SelectValue(m2, clockwise), parameter);
    }
  }

  lemma TagRequestLog(m: Menu, parameter: byte)
    requires Sound(m)
    ensures Paused(TagRequest(m).log) == Paused(m.log)
    ensures Asks(TagRequest(m).log, parameter) == Asks(m.log, parameter)
  {
    var message := QueryName(if m.param == PARAM_PLAYLIST then PARAMETER_PLAYLIST else PARAMETER_TRACK, m.tagValue);
    SendLog(m, message, parameter);
    assert TagRequest(m) == m || TagRequest(m) == Send(m, message);
  }

  lemma PauseKept(m: Menu, home: Mode, ev: Event)
    requires Shape(m, home) && PauseRight(m) && Legal(m, ev)
    ensures PauseRight(Do(m, ev))
  {
    match ev
    case Rotor(rotor, clockwise) =>
      if m.state == RotorState(rotor) {
        ClickFrame(m, rotor, clockwise);
        ClickLog(m, rotor, clockwise, 0);
      } else if !(m.state == Idle && rotor == ROTOR_APPLY) {
        RotorChangeLog(m, home, rotor, clockwise, 0);
      }
    case Answer(_, _, _, _) =>
    case Name(_, _) => NamePause(m, home, ev);
    case Timeout => StopLog(m, home, 0);
    case TagTimeout =>
      TagRequestFrame(m);
      TagRequestLog(m, 0);
  }

  lemma NamePause(m: Menu, home: Mode, ev: Event)
    requires Shape(m, home) && PauseRight(m) && Legal(m, ev) && ev.Name?
    ensures PauseRight(Do(m, ev))
  {
    if m.param <= PARAM_PLAYLIST {
      SetStateLog(Schedule(m, DELAY_READ), home, Tag, 0);
    }
  }

  // ----- questions and answers of a session -----

  /** The Pi's last answer about a value, and the clicks of its knob since. */
  datatype Heard = Heard(range: Range, clicks: seq<bool>)

  /** What the session so far rests on: the messages before it and the Pi's answers in it. */
  datatype Past = Past(earlier: seq<Message>, answers: map<nat, Heard>)

  function Note(m: Menu, past: Past, ev: Event): Past
    requires Sound(m)
  {
    if m.state == Idle && Do(m, ev).state != Idle then Past(m.log, map[])
    else
      match ev
      case Answer(parameter, value, low, high) =>
        if !ParameterValue(m, parameter, value, low, high).1 then past
        else past.(answers := past.answers[ValueAnswered(parameter) := Heard(Range(low, high, value, value), [])])
      case Rotor(rotor, clockwise) => past.(answers := NoteClick(past.answers, m.connected, rotor, clockwise))
      case _ => past
  }

  /** The value that the Pi answers about. */
  function ValueAnswered(parameter: byte): nat {
    if parameter == PARAMETER_PLAYLIST then VALUE_PLAYLIST
    else if parameter == PARAMETER_TRACK then VALUE_TRACK
    else VALUE_VOLUME
  }

  /** The value that a knob has the name of; without the Pi there is only the brightness. */
  function KnobValue(connected: bool, rotor: nat): Option<nat> {
    if rotor == ROTOR_APPLY || rotor == ROTOR_PARAM then None
    else if !connected then Some(VALUE_BRIGHTNESS)
    else if rotor == ROTOR_PLAYLIST then Some(VALUE_PLAYLIST)
    else if rotor == ROTOR_TRACK then Some(VALUE_TRACK)
    else Some(VALUE_VOLUME)
  }

  function NoteClick(answers: map<nat, Heard>, connected: bool, rotor: nat, clockwise: bool): map<nat, Heard> {
    var id := KnobValue(connected, rotor);
    if id.None? || id.value !in answers then answers
    else answers[id.value := answers[id.value].(clicks := answers[id.value].clicks + [clockwise])]
  }

  /** What clicks of its knob make of a value. */
  function Clicked(r: Range, clicks: seq<bool>): Range
    decreases |clicks|
  {
    if clicks == [] then r else Turned(Clicked(r, clicks[..|clicks| - 1]), clicks[|clicks| - 1])
  }

  lemma ClickedMore(r: Range, clicks: seq<bool>, clockwise: bool)
    ensures Clicked(r, clicks + [clockwise]) == Turned(Clicked(r, clicks), clockwise)
  {
    assert (clicks + [clockwise])[..|clicks|] == clicks;
  }

  /** Questions about a value since the session began. */
  function Asked(m: Menu, past: Past, param: nat): int {
    Asks(m.log, ParameterOf(param)) - Asks(past.earlier, ParameterOf(param))
  }

  /** A value of a connected menu has been asked for once if the menu has noted so, or never. */
  predicate AskedRight(m: Menu, past: Past, param: nat) {
    if m.state == Idle then 0 <= Asked(m, past, param) <= 1
    else Asked(m, past, param) == if m.connected && ValueId(param) in m.asked then 1 else 0
  }

  /** A value is known once it has been answered, and is what the clicks since have made of the
      last answer. */
  predicate AnsweredRight(m: Menu, past: Past, param: nat)
    requires Sound(m)
  {
    m.state != Idle ==> HeardRight(m.known, m.values, past.answers, ValueId(param))
  }

  predicate HeardRight(known: set<nat>, values: seq<Range>, answers: map<nat, Heard>, id: nat)
    requires id < |values|
  {
    && (id in known <==> id in answers)
    && (id in answers ==>
          && answers[id].range.now == answers[id].range.was
          && values[id] == Clicked(answers[id].range, answers[id].clicks))
  }

  /** A click keeps that right. */
  lemma TurnHeard(known: set<nat>, values: seq<Range>, answers: map<nat, Heard>, connected: bool, rotor: nat,
                  clockwise: bool, id: nat)
    requires |values| == VALUE_MAX && id < VALUE_MAX && HeardRight(known, values, answers, id)
    requires rotor <= ROTOR_APPLY && RotorState(rotor) == Value
    ensures HeardRight(known, TurnedValues(values, known, RotorParam(connected, rotor), clockwise),
                       NoteClick(answers, connected, rotor, clockwise), id)
  {
    if id in answers {
      ClickedMore(answers[id].range, answers[id].clicks, clockwise);
    }
  }

  /** A click of another rotor, for the values and the questions. */
  lemma ChangeFacts(m: Menu, home: Mode, rotor: nat, clockwise: bool)
    requires Shape(m, home) && rotor <= ROTOR_APPLY && m.state != RotorState(rotor)
    requires m.state == Idle ==> rotor < ROTOR_APPLY
    ensures var m0 := Opened(m, rotor);
            var m1 := Change(m, rotor, clockwise);
            && m0.connected == m.connected == m1.connected && m1.state != Idle
            && Grown(m0.asked, m1) && SameRanges(m0.values, m1.values) && m1.known == m0.known
            && m1.values == (if RotorState(rotor) == Value
                             then TurnedValues(m0.values, m0.known, RotorParam(m0.connected, rotor), clockwise)
                             else m0.values)
            && (m.state == Idle ==> m0.known == m0.asked == {VALUE_BRIGHTNESS})
  {
    ChangeKeeps(m, home, rotor, clockwise);
    ChangeFrame(m, rotor, clockwise);
    SetStateFrame(Opened(m, rotor), RotorState(rotor));
    if m.state == Idle {
      StartFrame(m, rotor);
    }
  }

  lemma RotorAsked(m: Menu, home: Mode, past: Past, rotor: nat, clockwise: bool, param: nat)
    requires Shape(m, home) && PauseRight(m) && rotor <= ROTOR_APPLY && m.state != RotorState(rotor)
    requires m.state == Idle ==> rotor < ROTOR_APPLY
    requires FromPi(param) && AskedRight(m, past, param)
    ensures var past1 := Past(if m.state == Idle then m.log else past.earlier, past.answers);
            AskedRight(Change(m, rotor, clockwise), past1, param)
  {
    ChangeFacts(m, home, rotor, clockwise);
    RotorChangeLog(m, home, rotor, clockwise, ParameterOf(param));
  }

  lemma NameAsked(m: Menu, home: Mode, past: Past, ev: Event, param: nat)
    requires Shape(m, home) && PauseRight(m) && Legal(m, ev) && ev.Name?
    requires AskedRight(m, past, param)
    ensures AskedRight(Do(m, ev), Note(m, past, ev), param)
  {
    if m.param <= PARAM_PLAYLIST {
      SetStateLog(Schedule(m, DELAY_READ), home, Tag, ParameterOf(param));
      SetStateFrame(Schedule(m, DELAY_READ), Tag);
      SetStateOpen(Schedule(m, DELAY_READ), home, Tag);
    }
  }

  lemma RotorStepAsked(m: Menu, home: Mode, past: Past, rotor: nat, clockwise: bool, param: nat)
    requires Shape(m, home) && PauseRight(m) && rotor <= ROTOR_APPLY && FromPi(param) && AskedRight(m, past, param)
    ensures AskedRight(HandleRotor(m, rotor, clockwise), Note(m, past, Rotor(rotor, clockwise)), param)
  {
    if m.state == RotorState(rotor) {
      ClickFrame(m, rotor, clockwise);
      ClickLog(m, rotor, clockwise, ParameterOf(param));
    } else if !(m.state == Idle && rotor == ROTOR_APPLY) {
      RotorAsked(m, home, past, rotor, clockwise, param);
      ChangeFacts(m, home, rotor, clockwise);
    }
  }

  lemma AnswerAsked(m: Menu, past: Past, ev: Event, param: nat)
    requires Sound(m) && Legal(m, ev) && ev.Answer? && AskedRight(m, past, param)
    ensures AskedRight(Do(m, ev), Note(m, past, ev), param)
  {
  }

  lemma AskedKept(m: Menu, home: Mode, past: Past, ev: Event, param: nat)
    requires Shape(m, home) && PauseRight(m) && Legal(m, ev) && FromPi(param) && AskedRight(m, past, param)
    ensures AskedRight(Do(m, ev), Note(m, past, ev), param)
  {
    match ev
    case Rotor(rotor, clockwise) => RotorStepAsked(m, home, past, rotor, clockwise, param);
    case Answer(_, _, _, _) => AnswerAsked(m, past, ev, param);
    case Name(_, _) => NameAsked(m, home, past, ev, param);
    case Timeout =>
      StopFrame(m, home);
      StopLog(m, home, ParameterOf(param));
    case TagTimeout =>
      TagRequestFrame(m);
      TagRequestLog(m, ParameterOf(param));
  }

  lemma RotorAnswered(m: Menu, home: Mode, past: Past, rotor: nat, clockwise: bool, param: nat)
    requires Shape(m, home) && rotor <= ROTOR_APPLY && FromPi(param) && AnsweredRight(m, past, param)
    ensures Sound(HandleRotor(m, rotor, clockwise))
    ensures AnsweredRight(HandleRotor(m, rotor, clockwise), Note(m, past, Rotor(rotor, clockwise)), param)
  {
    RotorKeeps(m, home, rotor, clockwise);
    if m.state != Idle && RotorState(rotor) == Value {
      TurnHeard(m.known, m.values, past.answers, m.connected, rotor, clockwise, ValueId(param));
    }
    if m.state == RotorState(rotor) {
      ClickFrame(m, rotor, clockwise);
    } else if !(m.state == Idle && rotor == ROTOR_APPLY) {
      ChangeFacts(m, home, rotor, clockwise);
    }
  }

  lemma AnswerAnswered(m: Menu, past: Past, ev: Event, param: nat)
    requires Sound(m) && Legal(m, ev) && ev.Answer? && FromPi(param) && AnsweredRight(m, past, param)
    ensures Sound(Do(m, ev)) && AnsweredRight(Do(m, ev), Note(m, past, ev), param)
  {
  }

  lemma NameAnswered(m: Menu, past: Past, ev: Event, param: nat)
    requires Sound(m) && Legal(m, ev) && ev.Name? && AnsweredRight(m, past, param)
    ensures Sound(Do(m, ev)) && AnsweredRight(Do(m, ev), Note(m, past, ev), param)
  {
    SetStateFrame(Schedule(m, DELAY_READ), Tag);
  }

  lemma AnsweredKept(m: Menu, home: Mode, past: Past, ev: Event, param: nat)
    requires Shape(m, home) && Legal(m, ev) && FromPi(param) && AnsweredRight(m, past, param)
    ensures Sound(Do(m, ev)) && AnsweredRight(Do(m, ev), Note(m, past, ev), param)
  {
    match ev
    case Rotor(rotor, clockwise) => RotorAnswered(m, home, past, rotor, clockwise, param);
    case Answer(_, _, _, _) => AnswerAnswered(m, past, ev, param);
    case Name(_, _) => NameAnswered(m, past, ev, param);
    case Timeout => StopFrame(m, home);
    case TagTimeout => TagRequestFrame(m);
  }

  /** While the menu is open the brightness is what the menu found, and can be set to all it may be. */
  predicate BrightnessRight(m: Menu)
    requires Sound(m)
  {
    m.state != Idle ==>
      var b := m.values[VALUE_BRIGHTNESS];
      b.was == m.brightness && b.low == 0 && b.high == 15 && VALUE_BRIGHTNESS in m.known
  }

  lemma RotorBrightness(m: Menu, home: Mode, rotor: nat, clockwise: bool)
    requires Shape(m, home) && rotor <= ROTOR_APPLY && BrightnessRight(m)
    ensures Sound(HandleRotor(m, rotor, clockwise)) && BrightnessRight(HandleRotor(m, rotor, clockwise))
  {
    if m.state == RotorState(rotor) {
      ClickFrame(m, rotor, clockwise);
    } else if !(m.state == Idle && rotor == ROTOR_APPLY) {
      ChangeFacts(m, home, rotor, clockwise);
      ChangeFrame(m, rotor, clockwise);
      SetStateFrame(Opened(m, rotor), RotorState(rotor));
    }
  }

  lemma BrightnessKept(m: Menu, home: Mode, ev: Event)
    requires Shape(m, home) && Legal(m, ev) && BrightnessRight(m)
    ensures Sound(Do(m, ev)) && BrightnessRight(Do(m, ev))
  {
    match ev
    case Rotor(rotor, clockwise) => RotorBrightness(m, home, rotor, clockwise);
    case Answer(_, _, _, _) =>
    case Name(_, _) => SetStateFrame(Schedule(m, DELAY_READ), Tag);
    case Timeout => StopFrame(m, home);
    case TagTimeout => TagRequestFrame(m);
  }
}
