/** Which knob turns what: the menu's lookups, by name, in every state a run reaches. */
module MenuKnobs {
  import opened Constants
  import opened MenuModel
  import opened MenuRuns
  import opened MenuLog
  import opened MenuTheorems
  import opened HandleObjects
  import Sequences

  /** What belongs together: a knob, the parameter it selects, the value it turns and the Pi's
      number for it. */
  predicate Knob(rotor: nat, param: nat, value: nat, parameter: byte) {
    || (rotor == ROTOR_PLAYLIST && param == PARAM_PLAYLIST && value == VALUE_PLAYLIST && parameter == PARAMETER_PLAYLIST)
    || (rotor == ROTOR_TRACK && param == PARAM_TRACK && value == VALUE_TRACK && parameter == PARAMETER_TRACK)
    || (rotor == ROTOR_VOLUME && param == PARAM_VOLUME && value == VALUE_VOLUME && parameter == PARAMETER_VOLUME)
  }

  /** One click moves a value by one, up when clockwise, and not past the end of its range. */
  predicate OneClick(before: Range, after: Range, clockwise: bool) {
    && after == before.(now := after.now)
    && (if clockwise then after.now == before.now + (if before.now < before.high then 1 else 0)
        else after.now == before.now - (if before.now > before.low then 1 else 0))
  }

  /** Nothing but, perhaps, the value `id` has moved. */
  predicate OthersSame(before: seq<Range>, after: seq<Range>, id: nat) {
    |before| == |after| == VALUE_MAX && forall k :: 0 <= k < VALUE_MAX && k != id ==> after[k] == before[k]
  }

  /** The values as a click finds them: those of a new session when the menu was closed. */
  function Before(m: Menu): seq<Range> {
    if m.state == Idle then Fresh(m.brightness) else m.values
  }

  /** What a click says before anything else: SUSPEND, when it opens the menu or ends the display of
      a name, to a Pi that is connected. */
  function Begins(m: Menu): seq<Message> {
    if m.connected && (m.state == Idle || m.state == Tag) then [Suspend] else []
  }

  /** A click asks for a value that it selects and that has been neither asked for nor answered. */
  function Asking(m: Menu, param: nat, value: nat, parameter: byte): seq<Message> {
    if m.state == Idle || (value !in m.known + m.asked && !(m.state == Value && m.param == param))
    then [QueryNumber(parameter)] else []
  }

  /** What a knob of a connected menu does. */
  predicate TurnsOwn(m: Menu, m1: Menu, clockwise: bool, param: nat, value: nat, parameter: byte)
    requires Sound(m) && value < VALUE_MAX
  {
    && m1.state == Value && m1.param == param && m1.timer == Some(5)
    && OthersSame(Before(m), m1.values, value)
    && (if m.state != Idle && value in m.known then OneClick(m.values[value], m1.values[value], clockwise)
        else m1.values[value] == Before(m)[value])
    && m1.log == m.log + Begins(m) + Asking(m, param, value, parameter)
  }

  lemma QueryNamed(m: Menu, rotor: nat, param: nat, value: nat, parameter: byte)
    requires Knob(rotor, param, value, parameter) && m.param == param && m.connected
    ensures QuerySource(m).log
            == m.log + if value in m.known + m.asked then [] else [QueryNumber(parameter)]
    ensures QuerySource(m) == m.(log := QuerySource(m).log, asked := QuerySource(m).asked)
  {
  }

  lemma TurnNamed(m: Menu, rotor: nat, param: nat, value: nat, parameter: byte, clockwise: bool)
    requires Sound(m) && Knob(rotor, param, value, parameter) && m.param == param
    ensures var m1 := SelectValue(m, clockwise);
            && m1 == m.(values := m1.values) && OthersSame(m.values, m1.values, value)
            && (if value in m.known then OneClick(m.values[value], m1.values[value], clockwise)
                else m1.values[value] == m.values[value])
  {
  }

  /** From a value to this one, or on with it. */
  lemma ValueClick(m: Menu, home: Mode, rotor: nat, clockwise: bool, param: nat, value: nat, parameter: byte)
    requires Shape(m, home) && m.connected && m.state == Value && Knob(rotor, param, value, parameter)
    ensures TurnsOwn(m, HandleRotor(m, rotor, clockwise), clockwise, param, value, parameter)
  {
    var m0 := m.(param := param);
    QueryNamed(m0, rotor, param, value, parameter);
    var m1 := if m.param != param then QuerySource(m0) else m;
    TurnNamed(m1, rotor, param, value, parameter, clockwise);
    TagFrame(SelectValue(m1, clockwise));
    assert m.log + [] == m.log;
  }

  /** The state a knob for a value finds when it has opened the menu or changed its state. */
  lemma IntoValue(m: Menu, home: Mode, rotor: nat)
    requires Shape(m, home) && m.state != Value && RotorState(rotor) == Value
    ensures var m1 := SetState(Opened(m, rotor), Value);
            && m1.state == Value && m1.values == Before(m) && m1.connected == m.connected
            && m1.boots == m.boots && m1.brightness == m.brightness
            && m1.log == m.log + Begins(m)
            && m1.known == (if m.state == Idle then {VALUE_BRIGHTNESS} else m.known)
            && m1.asked == (if m.state == Idle then {VALUE_BRIGHTNESS} else m.asked)
  {
    assert m.log + [] == m.log;
  }

  /** From anything else to the value of a knob. */
  lemma ValueFirst(m: Menu, home: Mode, rotor: nat, clockwise: bool, param: nat, value: nat, parameter: byte)
    requires Shape(m, home) && m.connected && m.state != Value && Knob(rotor, param, value, parameter)
    ensures TurnsOwn(m, HandleRotor(m, rotor, clockwise), clockwise, param, value, parameter)
  {
    IntoValue(m, home, rotor);
    var m1 := SetState(Opened(m, rotor), Value);
    var m2 := m1.(param := param);
    TurnNamed(m2, rotor, param, value, parameter, clockwise);
    QueryNamed(SelectValue(m2, clockwise), rotor, param, value, parameter);
    assert HandleRotor(m, rotor, clockwise) == Schedule(QuerySource(SelectValue(m2, clockwise)), DELAY_SELECT);
  }

  lemma KnobKnown(m: Menu, home: Mode, past: Past, rotor: nat, param: nat, value: nat, parameter: byte)
    requires Kept(m, home, past) && m.connected && Knob(rotor, param, value, parameter)
    ensures m.state != Idle ==>
              && (value in m.known <==> value in past.answers)
              && (value in m.asked <==> Asks(m.log, parameter) - Asks(past.earlier, parameter) == 1)
  {
  }

  /** In every state a run reaches, a click of the PLAYLIST, TRACK or VOLUME knob of a connected menu
      selects the value of that name and moves it by one if the Pi has answered about it, moves no
      other value, and asks the Pi about that value and no other. */
  lemma KnobTurnsItsValue(m: Menu, home: Mode, past: Past, rotor: nat, clockwise: bool,
                          param: nat, value: nat, parameter: byte)
    requires Reached(m, home, past) && m.connected && Knob(rotor, param, value, parameter)
    ensures Sound(m) && TurnsOwn(m, HandleRotor(m, rotor, clockwise), clockwise, param, value, parameter)
    ensures m.state != Idle ==>
              && (value in m.known <==> value in past.answers)
              && (value in m.asked <==> Asks(m.log, parameter) - Asks(past.earlier, parameter) == 1)
  {
    ReachedKept(m, home, past);
    KnobKnown(m, home, past, rotor, param, value, parameter);
    if m.state == Value {
      ValueClick(m, home, rotor, clockwise, param, value, parameter);
    } else {
      ValueFirst(m, home, rotor, clockwise, param, value, parameter);
    }
  }

  /** The brightness, turned by one click between 0 and 15. */
  predicate TurnsBrightness(m: Menu, m1: Menu, clockwise: bool)
    requires Sound(m)
  {
    var before := Before(m)[VALUE_BRIGHTNESS];
    && m1.state == Value && m1.param == PARAM_BRIGHTNESS && m1.timer == Some(5)
    && OthersSame(Before(m), m1.values, VALUE_BRIGHTNESS)
    && before.low == 0 && before.high == 15 && (m.state == Idle ==> before.now == m.brightness)
    && OneClick(before, m1.values[VALUE_BRIGHTNESS], clockwise)
    && m1.log == m.log && m1.boots == m.boots && m1.brightness == m.brightness
  }

  lemma BrightnessTurns(m: Menu, clockwise: bool)
    requires Sound(m) && m.param == PARAM_BRIGHTNESS && VALUE_BRIGHTNESS in m.known
    ensures var m1 := SelectValue(m, clockwise);
            && m1 == m.(values := m1.values) && OthersSame(m.values, m1.values, VALUE_BRIGHTNESS)
            && OneClick(m.values[VALUE_BRIGHTNESS], m1.values[VALUE_BRIGHTNESS], clockwise)
            && QuerySource(m) == m && QuerySource(m1) == m1 && ScheduleTag(m1) == m1
  {
  }

  lemma BrightnessClick(m: Menu, home: Mode, rotor: nat, clockwise: bool)
    requires Shape(m, home) && BrightnessRight(m) && !m.connected && m.state == Value
    requires rotor in {ROTOR_PLAYLIST, ROTOR_TRACK, ROTOR_VOLUME}
    ensures TurnsBrightness(m, HandleRotor(m, rotor, clockwise), clockwise)
  {
    BrightnessTurns(m.(param := PARAM_BRIGHTNESS), clockwise);
  }

  lemma BrightnessFirst(m: Menu, home: Mode, rotor: nat, clockwise: bool)
    requires Shape(m, home) && BrightnessRight(m) && !m.connected && m.state != Value
    requires rotor in {ROTOR_PLAYLIST, ROTOR_TRACK, ROTOR_VOLUME}
    ensures TurnsBrightness(m, HandleRotor(m, rotor, clockwise), clockwise)
  {
    IntoValue(m, home, rotor);
    var m1 := SetState(Opened(m, rotor), Value);
    BrightnessTurns(m1.(param := PARAM_BRIGHTNESS), clockwise);
    assert m.log + [] == m.log;
  }

  /** Without the Pi every knob for a value selects the brightness and moves it by one, between 0 and
      15; nothing else changes and nothing is said. */
  lemma UnconnectedKnob(m: Menu, home: Mode, past: Past, rotor: nat, clockwise: bool)
    requires Reached(m, home, past) && !m.connected && rotor in {ROTOR_PLAYLIST, ROTOR_TRACK, ROTOR_VOLUME}
    ensures Sound(m) && TurnsBrightness(m, HandleRotor(m, rotor, clockwise), clockwise)
  {
    ReachedKept(m, home, past);
    if m.state == Value {
      BrightnessClick(m, home, rotor, clockwise);
    } else {
      BrightnessFirst(m, home, rotor, clockwise);
    }
  }

  /** The parameter that the PARAM knob starts from: the first of the list, unless the menu is among
      parameters and values already. */
  function ListedFrom(m: Menu, first: nat): nat {
    if m.state == Idle || m.state == Apply then first else m.param
  }

  /** One click through a list, which ends at both ends. */
  predicate ListStep(from: nat, to: nat, first: nat, last: nat, clockwise: bool) {
    if clockwise then to == from + (if from < last then 1 else 0)
    else to == from - (if from > first then 1 else 0)
  }

  /** The state the PARAM knob finds when it has opened the menu or changed its state. */
  lemma IntoParam(m: Menu, home: Mode)
    requires Shape(m, home) && m.state != Param
    ensures var m1 := SetState(Opened(m, ROTOR_PARAM), Param);
            && m1.values == Before(m) && m1.log == m.log + Begins(m)
            && m1.boots == m.boots && m1.brightness == m.brightness
            && m1.param == ListedFrom(m, if m.connected then PARAM_POWER_OFF else PARAM_POWER_ON)
            && m1.paramMin == (if m.connected then PARAM_POWER_OFF else PARAM_POWER_ON)
            && m1.paramMax == (if m.connected then PARAM_REBOOT else PARAM_POWER_ON)
  {
    assert m.log + [] == m.log;
  }

  predicate ChoosesParam(m: Menu, m1: Menu, clockwise: bool) {
    var first := if m.connected then PARAM_POWER_OFF else PARAM_POWER_ON;
    var last := if m.connected then PARAM_REBOOT else PARAM_POWER_ON;
    && m1.state == Param && m1.timer == Some(5)
    && ListStep(ListedFrom(m, first), m1.param, first, last, clockwise)
    && (!m.connected && clockwise ==> m1.param == PARAM_POWER_ON)
    && m1.values == Before(m) && m1.log == m.log + Begins(m)
    && m1.boots == m.boots && m1.brightness == m.brightness
  }

  lemma ParamClick(m: Menu, home: Mode, clockwise: bool)
    requires Shape(m, home)
    ensures ChoosesParam(m, HandleRotor(m, ROTOR_PARAM, clockwise), clockwise)
  {
    if m.state == Param {
      assert m.log + [] == m.log;
    } else {
      IntoParam(m, home);
      SetStateFrame(Opened(m, ROTOR_PARAM), Param);
      var m1 := SetState(Opened(m, ROTOR_PARAM), Param);
      assert HandleRotor(m, ROTOR_PARAM, clockwise) == Schedule(SelectParam(m1, clockwise), DELAY_SELECT);
    }
  }

  /** The PARAM knob goes through the list of parameters, POWER_OFF to REBOOT, or POWER_ON alone when
      the Pi is not connected; it moves no value and asks for none. */
  lemma ParamKnob(m: Menu, home: Mode, past: Past, clockwise: bool)
    requires Reached(m, home, past)
    ensures Sound(m) && ChoosesParam(m, HandleRotor(m, ROTOR_PARAM, clockwise), clockwise)
  {
    ReachedKept(m, home, past);
    ParamClick(m, home, clockwise);
  }

  // ----- answers, names and requests for them -----

  /** The Pi's answer about a value is what that value, and no other, becomes. */
  lemma AnswerNamed(m: Menu, home: Mode, past: Past, rotor: nat, param: nat, value: nat, parameter: byte,
                    got: byte, low: byte, high: byte)
    requires Reached(m, home, past) && Knob(rotor, param, value, parameter)
    ensures Sound(m)
    ensures var (m1, ok) := ParameterValue(m, parameter, got, low, high);
            && ok && OthersSame(m.values, m1.values, value) && m1.values[value] == Range(low, high, got, got)
            && m1.known == m.known + {value}
            && m1 == m.(values := m1.values, known := m1.known, timer := Some(5))
  {
    ReachedKept(m, home, past);
  }

  /** An answer about anything but PLAYLIST, TRACK and VOLUME is refused. */
  lemma AnswerRefused(m: Menu, parameter: byte, got: byte, low: byte, high: byte)
    requires Sound(m)
    ensures parameter !in {3, 4, 5} <==> ParameterValue(m, parameter, got, low, high) == (m, false)
  {
  }

  /** The name that is awaited: of the playlist or the track that the menu displays. */
  predicate Awaits(m: Menu, parameter: byte, id: byte) {
    && ((parameter == 3 && m.param == PARAM_PLAYLIST) || (parameter == 4 && m.param == PARAM_TRACK))
    && m.tagParam == m.param && m.tagValue == id
  }

  /** A name that an open menu awaits is displayed: the Pi is told to RESUME and the display is its,
      for 8 seconds; any other name of a playlist or track is taken and ignored. */
  lemma NameNamed(m: Menu, home: Mode, past: Past, parameter: byte, id: byte)
    requires Reached(m, home, past) && m.state != Idle
    ensures var (m1, ok) := ParameterName(m, parameter, id);
            && ok == (parameter == 3 || parameter == 4)
            && (if Awaits(m, parameter, id) then
                  && m.connected && m1.state == Tag && m1.timer == Some(8) && m1.mode == Radio && !m1.drain
                  && m1.log == m.log + (if m.state == Tag then [] else [Resume])
                  && m1.values == m.values && m1.param == m.param
                else m1 == m)
  {
    ReachedKept(m, home, past);
    assert m.log + [] == m.log;
  }

  /** The request for the name of what is displayed goes out when nothing has moved since the knob
      did; it asks for the playlist or the track displayed. */
  lemma RequestNamed(m: Menu, home: Mode, past: Past)
    requires Reached(m, home, past) && m.connected
    ensures Sound(m)
    ensures m.state == Value && m.param == m.tagParam == PARAM_PLAYLIST ==>
              TagRequest(m).log == m.log + if m.tagValue == m.values[VALUE_PLAYLIST].now
                                           then [QueryName(3, m.values[VALUE_PLAYLIST].now)] else []
    ensures m.state == Value && m.param == m.tagParam == PARAM_TRACK ==>
              TagRequest(m).log == m.log + if m.tagValue == m.values[VALUE_TRACK].now
                                           then [QueryName(4, m.values[VALUE_TRACK].now)] else []
    ensures m.state != Value || m.param != m.tagParam ==> TagRequest(m) == m
  {
    ReachedKept(m, home, past);
    assert m.log + [] == m.log;
  }

  /** Turning the PLAYLIST or TRACK knob on awaits the name of what it has come to, for 2 seconds;
      the VOLUME knob awaits none. */
  lemma TagNamed(m: Menu, home: Mode, past: Past, rotor: nat, clockwise: bool, param: nat, value: nat, parameter: byte)
    requires Reached(m, home, past) && m.connected && m.state == Value && Knob(rotor, param, value, parameter)
    ensures Sound(m)
    ensures var m1 := HandleRotor(m, rotor, clockwise);
            && Sound(m1)
            && (if rotor == ROTOR_VOLUME then m1.tagTimer == m.tagTimer && m1.tagParam == m.tagParam
                else m1.tagTimer == Some(2) && m1.tagParam == param && m1.tagValue == m1.values[value].now)
  {
    ReachedKept(m, home, past);
    ValueClick(m, home, rotor, clockwise, param, value, parameter);
  }

  // ----- closing -----

  /** What takes effect when the menu closes: the parameter selected, also while a name is shown; with
      APPLY the one selected before it, and with CANCEL nothing. */
  lemma ChosenNamed(m: Menu, home: Mode, past: Past)
    requires Reached(m, home, past) && m.state != Idle
    ensures Chosen(Closing(m)) == if m.state != Apply then m.param
                                  else if m.param == PARAM_APPLY then m.secondary else PARAM_CANCEL
  {
    ReachedKept(m, home, past);
    SetStateFrame(m, Value);
  }

  /** What closing on a parameter that is on or off tells the Pi. */
  function Says(param: nat): seq<Message> {
    if param == PARAM_NEXT then [ParamSet(4, 2, 1)]
    else if param == PARAM_PREVIOUS then [ParamSet(4, 1, 1)]
    else if param == PARAM_PLAY then [ParamSet(0, 2, 2)]
    else if param == PARAM_STOP then [ParamSet(0, 1, 1)]
    else if param == PARAM_POWER_OFF then [PowerOff(0)]
    else if param == PARAM_POWER_OFF_15 then [PowerOff(15)]
    else if param == PARAM_POWER_OFF_30 then [PowerOff(30)]
    else if param == PARAM_REBOOT then [Reboot]
    else []
  }

  /** What the player is told by a message of the menu. */
  function Player(stored: byte, message: Message): seq<Command> {
    if message.ParamSet? then Commands(stored, message.parameter, message.sign, message.abs) else []
  }

  /** NEXT and PREVIOUS reach the player as one track up or down, PLAY and STOP as themselves. */
  lemma OrdersArrive(stored: byte)
    ensures Player(stored, Says(PARAM_NEXT)[0]) == [TrackSet(true, 1)]
    ensures Player(stored, Says(PARAM_PREVIOUS)[0]) == [TrackSet(false, 1)]
    ensures Player(stored, Says(PARAM_PLAY)[0]) == [Play]
    ensures Player(stored, Says(PARAM_STOP)[0]) == [Halt]
  {
  }

  lemma CloseLog(m: Menu, home: Mode)
    requires Shape(m, home) && m.state != Idle
    ensures var m1 := Closing(m);
            && m1.connected == m.connected
            && Stop(m).log == TakeEffect(m1, Chosen(m1)).log + (if m.connected then [Resume] else [])
            && Stop(m).boots == TakeEffect(m1, Chosen(m1)).boots && m1.boots == m.boots
  {
    var m1 := Closing(m);
    SetStateFrame(m, Value);
    SetStateOpen(m, home, Value);
    TakeEffectFrame(m1, Chosen(m1));
    assert TakeEffect(m1, Chosen(m1)).log + [] == TakeEffect(m1, Chosen(m1)).log;
  }

  /** The brightness a parameter stands for. */
  function Brightness(m: Menu, param: nat): byte
    requires Sound(m)
  {
    if param == PARAM_BRIGHTNESS then m.values[VALUE_BRIGHTNESS].now
    else if param == PARAM_BRIGHTNESS_MIN then 0
    else if param == PARAM_BRIGHTNESS_MIDDLE then 7
    else if param == PARAM_BRIGHTNESS_MAX then 15
    else m.brightness
  }

  lemma EffectNamed(m: Menu, param: nat)
    requires InReach(m) && m.values[VALUE_BRIGHTNESS].was == m.brightness && m.values[VALUE_BRIGHTNESS].high == 15
    requires param !in {PARAM_TRACK, PARAM_VOLUME, PARAM_PLAYLIST}
    ensures TakeEffect(m, param).brightness == Brightness(m, param)
    ensures TakeEffect(m, param).boots == m.boots + if param == PARAM_POWER_ON then 1 else 0
    ensures TakeEffect(m, param).log == m.log + if m.connected then Says(param) else []
  {
  }

  /** Closing on anything but a value of the Pi's says its message and no other, sets the brightness it
      has the name of, and switches the Pi on for POWER_ON and nothing else. */
  lemma CloseNamed(m: Menu, home: Mode, past: Past, param: nat)
    requires Reached(m, home, past) && m.state != Idle && param !in {PARAM_TRACK, PARAM_VOLUME, PARAM_PLAYLIST}
    ensures Sound(m)
    ensures Chosen(Closing(m)) == param ==>
              && Stop(m).log == Closing(m).log + (if m.connected then Says(param) + [Resume] else [])
              && Stop(m).boots == m.boots + (if param == PARAM_POWER_ON then 1 else 0)
              && Stop(m).brightness == Brightness(m, param)
  {
    ReachedKept(m, home, past);
    CloseLog(m, home);
    StopBrightness(m);
    ClosingRange(m);
    EffectNamed(Closing(m), param);
    Sequences.Assoc(Closing(m).log, Says(param), [Resume]);
    assert Closing(m).log + [] + [] == Closing(m).log + [];
  }

  /** The command that takes the player from `was` to `now`. */
  function Ordered(rotor: nat, was: byte, now: byte): Command {
    var up := was <= now;
    var delta := if up then now - was else was - now;
    if rotor == ROTOR_VOLUME then VolumeSet(up, delta)
    else if rotor == ROTOR_TRACK then TrackSet(up, delta)
    else PlaylistSet(now)
  }

  lemma ChangeCommands(rotor: nat, param: nat, value: nat, parameter: byte, was: byte, now: byte)
    requires Knob(rotor, param, value, parameter)
    ensures var (sign, abs) := SignAbs(was, now);
            && ParameterOf(param) == parameter && ValueId(param) == value
            && Player(was, ParamSet(parameter, sign, abs)) == [Ordered(rotor, was, now)]
  {
  }

  /** A change of VOLUME, TRACK or PLAYLIST that is sent reaches the player as what the display says:
      the volume or the track goes up or down from the Pi's last answer to the value displayed, and the
      playlist displayed is loaded. */
  lemma ChangeArrives(m: Menu, home: Mode, past: Past, rotor: nat, param: nat, value: nat, parameter: byte)
    returns (message: Message)
    requires Reached(m, home, past) && m.state != Idle && m.connected && Knob(rotor, param, value, parameter)
    requires Chosen(Closing(m)) == param && Sound(m) && value in past.answers && Warranted(m, past, param)
    ensures Stop(m).log == Closing(m).log + [message, Resume]
    ensures Player(past.answers[value].range.was, message)
            == [Ordered(rotor, past.answers[value].range.was, m.values[value].now)]
  {
    ChangeAgrees(m, home, past, param);
    var was, now := past.answers[value].range.was, m.values[value].now;
    ChangeCommands(rotor, param, value, parameter, was, now);
    var (sign, abs) := SignAbs(was, now);
    message := ParamSet(parameter, sign, abs);
  }
}
