/** The AVR's menu (src/avr/menu.c) as a value: its static variables and what it does to the
    mode, the display, the timers and the link. */
module MenuModel {
  import opened Constants

  // rotors
  const ROTOR_PLAYLIST := 0
  const ROTOR_PARAM := 1
  const ROTOR_TRACK := 2
  const ROTOR_VOLUME := 3
  const ROTOR_APPLY := 4

  // parameters
  const PARAM_TRACK := 0
  const PARAM_VOLUME := 1
  const PARAM_PLAYLIST := 2
  const PARAM_POWER_OFF := 3
  const PARAM_POWER_OFF_15 := 4
  const PARAM_POWER_OFF_30 := 5
  const PARAM_BRIGHTNESS_MIN := 6
  const PARAM_BRIGHTNESS_MIDDLE := 7
  const PARAM_BRIGHTNESS_MAX := 8
  const PARAM_NEXT := 9
  const PARAM_PREVIOUS := 10
  const PARAM_STOP := 11
  const PARAM_PLAY := 12
  const PARAM_REBOOT := 13
  const PARAM_BRIGHTNESS := 14
  const PARAM_POWER_ON := 15
  const PARAM_CANCEL := 16
  const PARAM_APPLY := 17

  // values that a knob turns
  const VALUE_BRIGHTNESS := 0
  const VALUE_PLAYLIST := 1
  const VALUE_TRACK := 2
  const VALUE_VOLUME := 3
  const VALUE_MAX := 4

  const DELAY_APPLY := 1
  const DELAY_READ := 8
  const DELAY_SELECT := 5
  const DELAY_TAG := 2

  const FLUSH_BRIGHTNESS_MIN: byte := 0
  const FLUSH_BRIGHTNESS_MIDDLE: byte := 7
  const FLUSH_BRIGHTNESS_MAX: byte := 15

  datatype State = Apply | Idle | Param | Tag | Value

  datatype Message =
    | Suspend
    | Resume
    | QueryNumber(parameter: byte)
    | QueryName(parameter: byte, id: byte)
    | ParamSet(parameter: byte, sign: byte, abs: byte)
    | PowerOff(minutes: byte)
    | Reboot

  /** What is known of a value: its range, what it was and what the knob has made of it. */
  datatype Range = Range(low: byte, high: byte, was: byte, now: byte)

  /** The menu's own variables, the answers and queries that param_flag records, and then the
      state of the modules it acts on. */
  datatype Menu = Menu(
    state: State,
    backup: Mode,
    known: set<nat>,
    asked: set<nat>,
    values: seq<Range>,
    param: nat,
    paramMin: nat,
    paramMax: nat,
    secondary: nat,
    tagParam: nat,
    tagValue: byte,
    mode: Mode,
    connected: bool,
    drain: bool,
    brightness: byte,
    timer: Option<nat>,
    tagTimer: Option<nat>,
    boots: nat,
    log: seq<Message>)

  predicate Sound(m: Menu) {
    |m.values| == VALUE_MAX
  }

  // ----- lookups -----

  predicate FromPi(param: nat) {
    param == PARAM_TRACK || param == PARAM_VOLUME || param == PARAM_PLAYLIST
  }

  predicate Adjustable(param: nat) {
    FromPi(param) || param == PARAM_BRIGHTNESS
  }

  function ValueId(param: nat): nat {
    if param == PARAM_TRACK then VALUE_TRACK
    else if param == PARAM_VOLUME then VALUE_VOLUME
    else if param == PARAM_BRIGHTNESS then VALUE_BRIGHTNESS
    else VALUE_PLAYLIST
  }

  function ParameterOf(param: nat): byte {
    if param == PARAM_TRACK then PARAMETER_TRACK
    else if param == PARAM_VOLUME then PARAMETER_VOLUME
    else PARAMETER_PLAYLIST
  }

  function ParamOf(parameter: byte): nat {
    if parameter == PARAMETER_VOLUME then PARAM_VOLUME
    else if parameter == PARAMETER_TRACK then PARAM_TRACK
    else PARAM_PLAYLIST
  }

  function RotorState(rotor: nat): State {
    if rotor == ROTOR_APPLY then Apply else if rotor == ROTOR_PARAM then Param else Value
  }

  function RotorParam(connected: bool, rotor: nat): nat {
    if rotor == ROTOR_APPLY then PARAM_APPLY
    else if !connected then if rotor == ROTOR_PARAM then PARAM_POWER_ON else PARAM_BRIGHTNESS
    else if rotor == ROTOR_VOLUME then PARAM_VOLUME
    else if rotor == ROTOR_TRACK then PARAM_TRACK
    else if rotor == ROTOR_PLAYLIST then PARAM_PLAYLIST
    else PARAM_POWER_OFF
  }

  function SignAbs(src: byte, dst: byte): (byte, byte) {
    if src == dst then (PARAMETER_POSITIVE, 0)
    else if src < dst then (PARAMETER_POSITIVE, dst - src)
    else (PARAMETER_NEGATIVE, src - dst)
  }

  // ----- the modules the menu acts on -----

  function Send(m: Menu, message: Message): Menu {
    if m.connected then m.(log := m.log + [message]) else m
  }

  function ModeSet(m: Menu, mode: Mode): Menu {
    if m.mode == mode then m
    else m.(mode := mode, connected := if mode == Watch then false else if mode == Radio then true else m.connected)
  }

  function BrightnessSet(m: Menu, b: byte): Menu {
    if b > FLUSH_BRIGHTNESS_MAX then m else m.(brightness := b)
  }

  function Schedule(m: Menu, delay: nat): Menu {
    m.(timer := Some(delay))
  }

  // ----- menu.c -----

  function QuerySource(m: Menu): Menu {
    if !FromPi(m.param) || ValueId(m.param) in m.known + m.asked then m
    else
      var m1 := Send(m, QueryNumber(ParameterOf(m.param)));
      m1.(asked := m1.asked + {ValueId(m.param)})
  }

  function SetParamRange(m: Menu, state: State): Menu {
    var m1 :=
      if state == Apply then m.(paramMin := PARAM_CANCEL, paramMax := PARAM_APPLY)
      else if state == Param || state == Value then
        m.(paramMin := if m.connected then PARAM_POWER_OFF else PARAM_POWER_ON,
           paramMax := if m.connected then PARAM_REBOOT else PARAM_POWER_ON)
      else m;
    if state != Value then m1.(param := m1.paramMin) else m1
  }

  /** Leaving or entering the display of a name. */
  function SwitchTag(m: Menu, state: State): Menu {
    if m.state == Tag then ModeSet(Send(m, Suspend).(drain := true), MenuMode)
    else if state == Tag then ModeSet(Send(m.(drain := false), Resume), Radio)
    else m
  }

  /** The parameters to choose from, when moving between choosing and applying. */
  function AdjustRange(m: Menu, state: State): Menu {
    if (m.state == Idle || m.state == Apply) && (state == Param || state == Value) then
      SetParamRange(m, state)
    else if (m.state == Param || m.state == Value) && state == Apply then
      SetParamRange(m.(secondary := m.param), state)
    else m
  }

  function SetState(m: Menu, state: State): Menu {
    if m.state == state then m else AdjustRange(SwitchTag(m, state), state).(state := state)
  }

  function Fresh(brightness: byte): seq<Range> {
    [Range(0, 0xF, brightness, brightness), Range(0, 0, 0, 0), Range(0, 0, 0, 0), Range(0, 0, 0, 0)]
  }

  function Reset(m: Menu): Menu {
    m.(backup := MenuMode, values := Fresh(m.brightness),
       known := {VALUE_BRIGHTNESS}, asked := {VALUE_BRIGHTNESS},
       param := PARAM_TRACK, secondary := PARAM_TRACK, state := Idle,
       tagParam := PARAM_TRACK, tagValue := 0)
  }

  /** The menu takes the mode and the display over. */
  function TakeOver(m: Menu): Menu {
    Send(ModeSet(m.(backup := m.mode), MenuMode), Suspend).(drain := true)
  }

  /** And gives them back. */
  function GiveBack(m: Menu): Menu {
    Send(ModeSet(m.(drain := false), m.backup), Resume)
  }

  function Start(m: Menu, rotor: nat): Menu {
    if rotor == ROTOR_APPLY then m else TakeOver(Reset(m))
  }

  /** The parameter that takes effect when the menu closes. */
  function Chosen(m: Menu): nat {
    if m.state == Idle || (m.state == Apply && m.param == PARAM_CANCEL) then PARAM_CANCEL
    else if m.state == Apply then m.secondary
    else m.param
  }

  /** The change of a value that the Pi keeps, if it was both asked for and answered. */
  function SendChange(m: Menu, param: nat): Menu
    requires Sound(m)
  {
    var id := ValueId(param);
    if id !in m.known || id !in m.asked then m
    else
      var (sign, abs) := SignAbs(m.values[id].was, m.values[id].now);
      if param == PARAM_PLAYLIST && abs == 0 then m
      else Send(m, ParamSet(ParameterOf(param), sign, abs))
  }

  /** The message of a parameter that is on or off. */
  function Order(param: nat): Option<Message> {
    if param == PARAM_NEXT then Some(ParamSet(PARAMETER_TRACK, PARAMETER_POSITIVE, 1))
    else if param == PARAM_PLAY then Some(ParamSet(PARAMETER_GO_AHEAD, PARAMETER_POSITIVE, PARAMETER_POSITIVE))
    else if param == PARAM_PREVIOUS then Some(ParamSet(PARAMETER_TRACK, PARAMETER_NEGATIVE, 1))
    else if param == PARAM_STOP then Some(ParamSet(PARAMETER_GO_AHEAD, PARAMETER_NEGATIVE, PARAMETER_NEGATIVE))
    else if param == PARAM_POWER_OFF then Some(PowerOff(0))
    else if param == PARAM_POWER_OFF_15 then Some(PowerOff(15))
    else if param == PARAM_POWER_OFF_30 then Some(PowerOff(30))
    else if param == PARAM_REBOOT then Some(Reboot)
    else None
  }

  function TakeEffect(m: Menu, param: nat): Menu
    requires Sound(m)
  {
    if param == PARAM_BRIGHTNESS then
      var b := m.values[VALUE_BRIGHTNESS];
      if b.was != b.now then BrightnessSet(m, b.now) else m
    else if param == PARAM_BRIGHTNESS_MIN then BrightnessSet(m, FLUSH_BRIGHTNESS_MIN)
    else if param == PARAM_BRIGHTNESS_MIDDLE then BrightnessSet(m, FLUSH_BRIGHTNESS_MIDDLE)
    else if param == PARAM_BRIGHTNESS_MAX then BrightnessSet(m, FLUSH_BRIGHTNESS_MAX)
    else if FromPi(param) then SendChange(m, param)
    else if param == PARAM_POWER_ON then m.(boots := m.boots + 1)
    else
      match Order(param)
      case Some(message) => Send(m, message)
      case None => m
  }

  /** The state in which the chosen parameter takes effect. */
  function Closing(m: Menu): Menu {
    if m.state == Tag then SetState(m, Value) else m
  }

  function Stop(m: Menu): Menu
    requires Sound(m)
  {
    var m1 := Closing(m);
    Reset(GiveBack(TakeEffect(m1, Chosen(m1))))
  }

  function TagRequest(m: Menu): Menu
    requires Sound(m)
  {
    var id := if m.param == PARAM_PLAYLIST then VALUE_PLAYLIST else VALUE_TRACK;
    if m.state != Value || m.param != m.tagParam || m.tagValue != m.values[id].now then m
    else Send(m, QueryName(if m.param == PARAM_PLAYLIST then PARAMETER_PLAYLIST else PARAMETER_TRACK, m.tagValue))
  }

  function ScheduleTag(m: Menu): Menu
    requires Sound(m)
  {
    if m.state != Value || (m.param != PARAM_PLAYLIST && m.param != PARAM_TRACK) then m
    else m.(tagParam := m.param, tagValue := m.values[ValueId(m.param)].now, tagTimer := Some(DELAY_TAG))
  }

  function SelectParam(m: Menu, clockwise: bool): Menu {
    if clockwise && m.param < m.paramMax then m.(param := m.param + 1)
    else if !clockwise && m.param > m.paramMin then m.(param := m.param - 1)
    else m
  }

  /** One click of a knob. */
  function Turned(r: Range, clockwise: bool): Range {
    if clockwise && r.now < r.high then r.(now := r.now + 1)
    else if !clockwise && r.now > r.low then r.(now := r.now - 1)
    else r
  }

  function SelectValue(m: Menu, clockwise: bool): Menu
    requires Sound(m)
  {
    var id := ValueId(m.param);
    if !Adjustable(m.param) || id !in m.known then m
    else m.(values := m.values[id := Turned(m.values[id], clockwise)])
  }

  function SelectApply(m: Menu, clockwise: bool): Menu {
    m.(param := if clockwise then PARAM_APPLY else PARAM_CANCEL)
  }

  /** A click in the state the rotor stands for. */
  function Click(m: Menu, rotor: nat, clockwise: bool): Menu
    requires Sound(m)
  {
    match m.state
    case Apply => SelectApply(m, clockwise)
    case Param => SelectParam(m, clockwise)
    case Value =>
      var param := RotorParam(m.connected, rotor);
      var m1 := if m.param != param then QuerySource(m.(param := param)) else m;
      ScheduleTag(SelectValue(m1, clockwise))
    case _ => m
  }

  /** The first click in the state that a rotor has brought about. */
  function FirstClick(m: Menu, rotor: nat, clockwise: bool): Menu
    requires Sound(m)
  {
    var state := RotorState(rotor);
    if state == Apply then SelectApply(m, clockwise)
    else if state == Param then SelectParam(m, clockwise)
    else QuerySource(SelectValue(m.(param := RotorParam(m.connected, rotor)), clockwise))
  }

  /** A click of another rotor than the state stands for. */
  function Change(m: Menu, rotor: nat, clockwise: bool): Menu
    requires Sound(m)
  {
    FirstClick(SetState(if m.state == Idle then Start(m, rotor) else m, RotorState(rotor)), rotor, clockwise)
  }

  /** menu_handle_rotor. */
  function HandleRotor(m: Menu, rotor: nat, clockwise: bool): Menu
    requires Sound(m)
  {
    var state := RotorState(rotor);
    if state == Apply && m.state == Idle then m
    else
      Schedule(if m.state == state then Click(m, rotor, clockwise) else Change(m, rotor, clockwise),
               if state == Apply then DELAY_APPLY else DELAY_SELECT)
  }

  /** menu_parameter_value: the Pi's answer to a query. */
  function ParameterValue(m: Menu, parameter: byte, value: byte, low: byte, high: byte): (Menu, bool)
    requires Sound(m)
  {
    if parameter != PARAMETER_VOLUME && parameter != PARAMETER_TRACK && parameter != PARAMETER_PLAYLIST then
      (m, false)
    else
      var id := ValueId(ParamOf(parameter));
      (Schedule(m.(values := m.values[id := Range(low, high, value, value)], known := m.known + {id}),
                DELAY_SELECT), true)
  }

  /** menu_parameter_name: the Pi is about to send a name. */
  function ParameterName(m: Menu, parameter: byte, id: byte): (Menu, bool) {
    if parameter != PARAMETER_PLAYLIST && parameter != PARAMETER_TRACK then (m, false)
    else
      var param := if parameter == PARAMETER_PLAYLIST then PARAM_PLAYLIST else PARAM_TRACK;
      if param != m.param || param != m.tagParam || id != m.tagValue then (m, true)
      else (SetState(Schedule(m, DELAY_READ), Tag), true)
  }
}
