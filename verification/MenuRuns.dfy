/** What the menu keeps over every run of knob clicks, answers from the Pi and timeouts. */
module MenuRuns {
  import opened Constants
  import opened MenuModel

  datatype Event =
    | Rotor(rotor: nat, clockwise: bool)
    | Answer(parameter: byte, value: byte, low: byte, high: byte)
    | Name(parameter: byte, id: byte)
    | Timeout
    | TagTimeout

  /** Answers, with any value and range, come while the menu is open; timers fire when set. */
  predicate Legal(m: Menu, ev: Event) {
    match ev
    case Rotor(rotor, _) => rotor <= ROTOR_APPLY
    case Answer(_, _, _, _) => m.state != Idle
    case Name(_, _) => m.state != Idle
    case Timeout => m.timer.Some?
    case TagTimeout => m.tagTimer.Some?
  }

  function Do(m: Menu, ev: Event): Menu
    requires Sound(m)
  {
    match ev
    case Rotor(rotor, clockwise) => HandleRotor(m, rotor, clockwise)
    case Answer(parameter, value, low, high) => ParameterValue(m, parameter, value, low, high).0
    case Name(parameter, id) => ParameterName(m, parameter, id).0
    case Timeout => Stop(m).(timer := None)
    case TagTimeout => TagRequest(m).(tagTimer := None)
  }

  // ----- modes, drain and timer -----

  /** Between sessions the mode is `home`; in a session it is saved, the display drains except
      while a name is shown, and the closing timer is running. */
  predicate Session(m: Menu, home: Mode) {
    && home != MenuMode && m.connected == (home == Radio)
    && m.drain == (m.state == Apply || m.state == Param || m.state == Value)
    && m.timer.Some? == (m.state != Idle)
    && (m.state == Idle ==> m.mode == home && m.backup == MenuMode)
    && (m.state != Idle ==> m.backup == home && m.mode == if m.state == Tag then Radio else MenuMode)
    && (m.state == Tag ==> home == Radio)
  }

  /** Which parameter can be selected in which state: those of the Pi exactly when it is
      connected. */
  predicate Selected(m: Menu) {
    && (m.state == Apply ==> (m.param == PARAM_APPLY || m.param == PARAM_CANCEL) && Offered(m, m.secondary))
    && (m.state == Param ==> Listed(m) && Offered(m, m.param))
    && (m.state == Value ==> Listed(m) && Offered(m, m.param) && Adjustable(m.param))
    && (m.state == Tag ==> Listed(m) && (m.param == PARAM_TRACK || m.param == PARAM_PLAYLIST))
    && (m.state != Idle && m.connected ==> Offered(m, m.secondary))
  }

  predicate Offered(m: Menu, param: nat) {
    if m.connected then param <= PARAM_REBOOT else param == PARAM_BRIGHTNESS || param == PARAM_POWER_ON
  }

  predicate Listed(m: Menu) {
    && m.paramMin == (if m.connected then PARAM_POWER_OFF else PARAM_POWER_ON)
    && m.paramMax == (if m.connected then PARAM_REBOOT else PARAM_POWER_ON)
  }

  /** A value lies between what it was and its range. */
  predicate Bounded(r: Range) {
    (if r.low <= r.was then r.low else r.was) <= r.now <= (if r.high >= r.was then r.high else r.was)
  }

  predicate InReach(m: Menu) {
    Sound(m) && m.brightness <= FLUSH_BRIGHTNESS_MAX && forall k :: 0 <= k < VALUE_MAX ==> Bounded(m.values[k])
  }

  // ----- what each function leaves alone -----

  /** Closing effects touch only brightness, the boot line and the link. */
  lemma TakeEffectFrame(m: Menu, param: nat)
    requires Sound(m)
    ensures var m1 := TakeEffect(m, param);
            m1 == m.(brightness := m1.brightness, boots := m1.boots, log := m1.log)
    ensures m.brightness <= FLUSH_BRIGHTNESS_MAX ==> TakeEffect(m, param).brightness <= FLUSH_BRIGHTNESS_MAX
  {
  }

  /** A closed menu, up to brightness, boots and the link. */
  lemma StopFrame(m: Menu, home: Mode)
    requires Sound(m) && Session(m, home) && m.state != Idle
    ensures var m1 := Stop(m);
            && m1.state == Idle && m1.mode == home && m1.backup == MenuMode
            && m1.connected == m.connected && !m1.drain
            && m1.timer == m.timer && m1.tagTimer == m.tagTimer && m1.values == Fresh(m1.brightness)
            && m1.known == m1.asked == {VALUE_BRIGHTNESS}
    ensures m.brightness <= FLUSH_BRIGHTNESS_MAX ==> Stop(m).brightness <= FLUSH_BRIGHTNESS_MAX
  {
    var m1 := Closing(m);
    TakeEffectFrame(m1, Chosen(m1));
  }

  /** The menu has taken the mode and the display over; `home` is what it goes back to. */
  predicate Open(m: Menu, home: Mode) {
    && home != MenuMode && m.connected == (home == Radio) && m.backup == home
    && m.drain == (m.state != Tag) && m.mode == (if m.state == Tag then Radio else MenuMode)
    && (m.state == Tag ==> home == Radio)
  }

  lemma SetStateFrame(m: Menu, state: State)
    ensures var m1 := SetState(m, state);
            && m1.state == state && m1.values == m.values && m1.brightness == m.brightness
            && m1.known == m.known && m1.asked == m.asked && m1.backup == m.backup && m1.timer == m.timer
            && m1.tagParam == m.tagParam && m1.tagValue == m.tagValue && m1.tagTimer == m.tagTimer
  {
    if m.state != state {
      var m1 := SwitchTag(m, state);
      assert m1 == m.(mode := m1.mode, connected := m1.connected, drain := m1.drain, log := m1.log);
    }
  }

  lemma SetStateOpen(m: Menu, home: Mode, state: State)
    requires Open(m, home) && state != Idle && (state == Tag ==> home == Radio)
    ensures Open(SetState(m, state), home) && SetState(m, state).state == state
  {
    if m.state != state {
      var m1 := SwitchTag(m, state);
      assert m1 == m.(mode := m1.mode, drain := m1.drain, log := m1.log);
    }
  }

  /** Which parameter is selected after a change of state. */
  lemma SetStateSelected(m: Menu, home: Mode, state: State)
    requires Open(m, home) && state != Idle && (state == Tag ==> home == Radio)
    requires if m.state == Idle then m.secondary == m.param == PARAM_TRACK && state != Apply else Selected(m)
    ensures var m1 := SetState(m, state);
            && (state == Param || state == Value ==> Listed(m1))
            && (state == Apply || m1.connected ==> Offered(m1, m1.secondary))
            && (state == Param ==> Offered(m1, m1.param))
  {
  }

  lemma StartFrame(m: Menu, rotor: nat)
    requires m.state == Idle && rotor < ROTOR_APPLY
    ensures var m1 := Start(m, rotor);
            && m1.state == Idle && m1.mode == MenuMode && m1.backup == m.mode && m1.drain && m1.timer == m.timer
            && m1.values == Fresh(m.brightness) && m1.brightness == m.brightness
            && m1.known == m1.asked == {VALUE_BRIGHTNESS} && m1.connected == m.connected
            && m1.param == m1.secondary == PARAM_TRACK
  {
  }

  /** At most the value of the selected parameter has been asked for since. */
  predicate Grown(asked: set<nat>, m: Menu) {
    m.asked == asked
    || (FromPi(m.param) && ValueId(m.param) !in asked && m.asked == asked + {ValueId(m.param)})
  }

  /** Only what the knobs have made of the values may differ. */
  predicate SameRanges(a: seq<Range>, b: seq<Range>) {
    |a| == |b| && forall k :: 0 <= k < |a| ==> b[k] == a[k].(now := b[k].now)
  }

  /** What a click of the knob for `param` makes of the values. */
  function TurnedValues(values: seq<Range>, known: set<nat>, param: nat, clockwise: bool): seq<Range> {
    var id := ValueId(param);
    if !Adjustable(param) || id !in known || id >= |values| then values else values[id := Turned(values[id], clockwise)]
  }

  lemma QueryFrame(m: Menu)
    ensures var m1 := QuerySource(m); m1 == m.(asked := m1.asked, log := m1.log)
    ensures Grown(m.asked, QuerySource(m))
  {
  }

  lemma TurnFrame(m: Menu, clockwise: bool)
    requires Sound(m)
    ensures var m1 := SelectValue(m, clockwise); m1 == m.(values := m1.values)
    ensures InReach(m) ==> InReach(SelectValue(m, clockwise))
    ensures SelectValue(m, clockwise).values == TurnedValues(m.values, m.known, m.param, clockwise)
    ensures SameRanges(m.values, SelectValue(m, clockwise).values)
  {
  }

  lemma TagFrame(m: Menu)
    requires Sound(m)
    ensures var m1 := ScheduleTag(m);
            m1 == m.(tagParam := m1.tagParam, tagValue := m1.tagValue, tagTimer := m1.tagTimer)
  {
  }

  // ----- every step -----

  /** What a click of the open menu's own rotor changes. */
  lemma ClickFrame(m: Menu, rotor: nat, clockwise: bool)
    requires Sound(m) && m.state == RotorState(rotor)
    ensures var m1 := Click(m, rotor, clockwise);
            m1 == m.(param := m1.param, values := m1.values, asked := m1.asked, log := m1.log,
                     tagParam := m1.tagParam, tagValue := m1.tagValue, tagTimer := m1.tagTimer)
    ensures m.state == Apply ==> Click(m, rotor, clockwise) == SelectApply(m, clockwise)
    ensures m.state == Param ==> Click(m, rotor, clockwise) == SelectParam(m, clockwise)
    ensures m.state == Value ==> Click(m, rotor, clockwise).param == RotorParam(m.connected, rotor)
    ensures InReach(m) ==> InReach(Click(m, rotor, clockwise))
    ensures Grown(m.asked, Click(m, rotor, clockwise))
    ensures SameRanges(m.values, Click(m, rotor, clockwise).values)
    ensures Click(m, rotor, clockwise).values
            == (if m.state == Value then TurnedValues(m.values, m.known, RotorParam(m.connected, rotor), clockwise)
                else m.values)
  {
    if m.state == Value {
      var param := RotorParam(m.connected, rotor);
      var m1 := if m.param != param then QuerySource(m.(param := param)) else m;
      QueryFrame(m.(param := param));
      TurnFrame(m1, clockwise);
      TagFrame(SelectValue(m1, clockwise));
    }
  }

  lemma ClickKeeps(m: Menu, home: Mode, rotor: nat, clockwise: bool)
    requires InReach(m) && Open(m, home) && Selected(m) && rotor <= ROTOR_APPLY
    requires m.state == RotorState(rotor)
    ensures var m1 := Click(m, rotor, clockwise);
            Open(m1, home) && Selected(m1) && InReach(m1) && m1.state == m.state
  {
    ClickFrame(m, rotor, clockwise);
  }

  /** The menu as a click of another rotor finds it: opened, if it was not. */
  function Opened(m: Menu, rotor: nat): Menu {
    if m.state == Idle then Start(m, rotor) else m
  }

  lemma FirstClickFrame(m: Menu, rotor: nat, clockwise: bool)
    requires Sound(m) && m.state == RotorState(rotor)
    ensures var m2 := FirstClick(m, rotor, clockwise);
            && m2 == m.(param := m2.param, values := m2.values, asked := m2.asked, log := m2.log)
            && (m.state == Apply ==> m2 == SelectApply(m, clockwise))
            && (m.state == Param ==> m2 == SelectParam(m, clockwise))
            && (m.state == Value ==> m2.param == RotorParam(m.connected, rotor))
            && (InReach(m) ==> InReach(m2))
            && Grown(m.asked, m2) && SameRanges(m.values, m2.values)
            && m2.values == (if m.state == Value
                             then TurnedValues(m.values, m.known, RotorParam(m.connected, rotor), clockwise)
                             else m.values)
  {
    var m2 := m.(param := RotorParam(m.connected, rotor));
    TurnFrame(m2, clockwise);
    QueryFrame(SelectValue(m2, clockwise));
  }

  /** What a click of another rotor changes once the state has been set. */
  lemma ChangeFrame(m: Menu, rotor: nat, clockwise: bool)
    requires Sound(m)
    ensures var m1 := SetState(Opened(m, rotor), RotorState(rotor));
            var m2 := Change(m, rotor, clockwise);
            && m2 == m1.(param := m2.param, values := m2.values, asked := m2.asked, log := m2.log)
            && (m1.state == Apply ==> m2 == SelectApply(m1, clockwise))
            && (m1.state == Param ==> m2 == SelectParam(m1, clockwise))
            && (m1.state == Value ==> m2.param == RotorParam(m1.connected, rotor))
            && (InReach(m1) ==> InReach(m2))
            && Grown(m1.asked, m2) && SameRanges(m1.values, m2.values)
            && m2.values == (if m1.state == Value
                             then TurnedValues(m1.values, m1.known, RotorParam(m1.connected, rotor), clockwise)
                             else m1.values)
  {
    SetStateFrame(Opened(m, rotor), RotorState(rotor));
    FirstClickFrame(SetState(Opened(m, rotor), RotorState(rotor)), rotor, clockwise);
  }

  lemma OpenedKeeps(m: Menu, home: Mode, rotor: nat)
    requires InReach(m) && rotor <= ROTOR_APPLY && (m.state == Idle ==> rotor < ROTOR_APPLY)
    requires if m.state == Idle then m.mode == home && home != MenuMode && m.connected == (home == Radio)
             else Open(m, home) && Selected(m)
    ensures var m0 := Opened(m, rotor);
            && Open(m0, home) && InReach(m0)
            && (if m0.state == Idle then m0.secondary == m0.param == PARAM_TRACK else Selected(m0))
  {
    if m.state == Idle {
      StartFrame(m, rotor);
    }
  }

  lemma ChangeKeeps(m: Menu, home: Mode, rotor: nat, clockwise: bool)
    requires InReach(m) && rotor <= ROTOR_APPLY
    requires if m.state == Idle then m.mode == home && home != MenuMode && m.connected == (home == Radio)
             else Open(m, home) && Selected(m)
    requires m.state != RotorState(rotor) && (m.state == Idle ==> rotor < ROTOR_APPLY)
    ensures var m1 := Change(m, rotor, clockwise);
            Open(m1, home) && Selected(m1) && InReach(m1) && m1.state == RotorState(rotor)
  {
    OpenedKeeps(m, home, rotor);
    var m0 := Opened(m, rotor);
    SetStateOpen(m0, home, RotorState(rotor));
    SetStateSelected(m0, home, RotorState(rotor));
    SetStateFrame(m0, RotorState(rotor));
    ChangeFrame(m, rotor, clockwise);
  }

  /** Modes, drain, timer, selection and ranges, in every state. */
  predicate Shape(m: Menu, home: Mode) {
    InReach(m) && Session(m, home) && Selected(m)
  }

  lemma RotorKeeps(m: Menu, home: Mode, rotor: nat, clockwise: bool)
    requires Shape(m, home) && rotor <= ROTOR_APPLY
    ensures Shape(HandleRotor(m, rotor, clockwise), home)
  {
    if m.state == RotorState(rotor) {
      ClickKeeps(m, home, rotor, clockwise);
    } else if !(m.state == Idle && rotor == ROTOR_APPLY) {
      ChangeKeeps(m, home, rotor, clockwise);
    }
  }

  lemma NameKeeps(m: Menu, home: Mode, ev: Event)
    requires Shape(m, home) && Legal(m, ev) && ev.Name?
    ensures Shape(Do(m, ev), home)
  {
    if Selected(m) && m.param <= PARAM_PLAYLIST {
      SetStateOpen(Schedule(m, DELAY_READ), home, Tag);
      SetStateSelected(Schedule(m, DELAY_READ), home, Tag);
      SetStateFrame(Schedule(m, DELAY_READ), Tag);
    }
  }

  lemma TimeoutKeeps(m: Menu, home: Mode)
    requires Shape(m, home) && m.state != Idle
    ensures Shape(Stop(m).(timer := None), home)
  {
    StopFrame(m, home);
  }

  lemma TagRequestFrame(m: Menu)
    requires Sound(m)
    ensures TagRequest(m) == m.(log := TagRequest(m).log)
  {
  }

  lemma AnswerKeeps(m: Menu, home: Mode, ev: Event)
    requires Shape(m, home) && Legal(m, ev) && ev.Answer?
    ensures Shape(Do(m, ev), home)
  {
  }

  lemma ShapeKept(m: Menu, home: Mode, ev: Event)
    requires Shape(m, home) && Legal(m, ev)
    ensures Shape(Do(m, ev), home)
  {
    match ev
    case Rotor(rotor, clockwise) => RotorKeeps(m, home, rotor, clockwise);
    case Answer(_, _, _, _) => AnswerKeeps(m, home, ev);
    case Name(_, _) => NameKeeps(m, home, ev);
    case Timeout => TimeoutKeeps(m, home);
    case TagTimeout => TagRequestFrame(m);
  }
}
