/** The menu as it runs (src/avr/menu.c): its static variables changed in place, each method
    having the effect of the function of MenuModel. */
module MenuObject {
  import opened Constants
  import opened MenuModel

  // param_flag: for each value the bit of its answer and the bit of its query
  const FLAG_BRIGHTNESS: bv8 := 0x01
  const FLAG_BRIGHTNESS_SENT: bv8 := 0x02
  const FLAG_PLAYLIST: bv8 := 0x04
  const FLAG_PLAYLIST_SENT: bv8 := 0x08
  const FLAG_TRACK: bv8 := 0x10
  const FLAG_TRACK_SENT: bv8 := 0x20
  const FLAG_VOLUME: bv8 := 0x40
  const FLAG_VOLUME_SENT: bv8 := 0x80

  function Flag(id: nat): bv8 {
    if id == VALUE_BRIGHTNESS then FLAG_BRIGHTNESS
    else if id == VALUE_PLAYLIST then FLAG_PLAYLIST
    else if id == VALUE_TRACK then FLAG_TRACK
    else FLAG_VOLUME
  }

  function FlagSent(id: nat): bv8 {
    if id == VALUE_BRIGHTNESS then FLAG_BRIGHTNESS_SENT
    else if id == VALUE_PLAYLIST then FLAG_PLAYLIST_SENT
    else if id == VALUE_TRACK then FLAG_TRACK_SENT
    else FLAG_VOLUME_SENT
  }

  /** The values whose bits, 1, 4, 16 and 64, are set. */
  function Marked(bits: bv8): set<nat> {
    (if bits & FLAG_BRIGHTNESS != 0 then {VALUE_BRIGHTNESS} else {})
    + (if bits & FLAG_PLAYLIST != 0 then {VALUE_PLAYLIST} else {})
    + (if bits & FLAG_TRACK != 0 then {VALUE_TRACK} else {})
    + (if bits & FLAG_VOLUME != 0 then {VALUE_VOLUME} else {})
  }

  /** The values whose answer bit is set. */
  function Known(flag: bv8): set<nat> {
    Marked(flag)
  }

  /** The values whose query bit is set. */
  function Asked(flag: bv8): set<nat> {
    Marked(flag >> 1)
  }

  lemma MarkBit(bits: bv8, id: nat)
    requires id < VALUE_MAX
    ensures Marked(bits | Flag(id)) == Marked(bits) + {id}
    ensures Marked(bits | FlagSent(id)) == Marked(bits)
  {
  }

  lemma ShiftFlag(flag: bv8, id: nat)
    requires id < VALUE_MAX
    ensures (flag | FlagSent(id)) >> 1 == (flag >> 1) | Flag(id)
    ensures Marked((flag | Flag(id)) >> 1) == Marked(flag >> 1)
  {
  }

  lemma SetKnown(flag: bv8, id: nat)
    requires id < VALUE_MAX
    ensures Known(flag | Flag(id)) == Known(flag) + {id} && Asked(flag | Flag(id)) == Asked(flag)
  {
    MarkBit(flag, id);
    ShiftFlag(flag, id);
  }

  lemma SetAsked(flag: bv8, id: nat)
    requires id < VALUE_MAX
    ensures Known(flag | FlagSent(id)) == Known(flag) && Asked(flag | FlagSent(id)) == Asked(flag) + {id}
  {
    MarkBit(flag, id);
    ShiftFlag(flag, id);
    MarkBit(flag >> 1, id);
  }

  lemma MaskFlag(flag: bv8, id: nat)
    requires id < VALUE_MAX
    ensures flag & (Flag(id) | FlagSent(id)) != 0 <==> id in Known(flag) + Asked(flag)
    ensures flag & (Flag(id) | FlagSent(id)) == Flag(id) | FlagSent(id) <==> id in Known(flag) && id in Asked(flag)
  {
  }

  lemma OnlyBrightness()
    ensures Known(FLAG_BRIGHTNESS | FLAG_BRIGHTNESS_SENT) == {VALUE_BRIGHTNESS}
    ensures Asked(FLAG_BRIGHTNESS | FLAG_BRIGHTNESS_SENT) == {VALUE_BRIGHTNESS}
  {
  }

  class Controller {
    const paramMax: array<byte>
    const paramMin: array<byte>
    const paramOld: array<byte>
    const paramNew: array<byte>
    var paramFlag: bv8
    var state: State
    var backup: Mode
    var paramId: nat
    var paramIdMin: nat
    var paramIdMax: nat
    var secondary: nat
    var tagParam: nat
    var tagValue: byte
    // the modules it acts on
    var mode: Mode
    var connected: bool
    var drain: bool
    var brightness: byte
    var timer: Option<nat>
    var tagTimer: Option<nat>
    var boots: nat
    var log: seq<Message>

    ghost predicate Valid()
      reads this
    {
      && paramMax.Length == paramMin.Length == paramOld.Length == paramNew.Length == VALUE_MAX
      && paramMax != paramMin && paramMax != paramOld && paramMax != paramNew
      && paramMin != paramOld && paramMin != paramNew && paramOld != paramNew
    }

    ghost function At(i: nat): Range
      reads this, paramMax, paramMin, paramOld, paramNew
      requires Valid() && i < VALUE_MAX
    {
      Range(paramMin[i], paramMax[i], paramOld[i], paramNew[i])
    }

    /** The four arrays, value by value. */
    ghost function Values(): seq<Range>
      reads this, paramMax, paramMin, paramOld, paramNew
      requires Valid()
    {
      [At(VALUE_BRIGHTNESS), At(VALUE_PLAYLIST), At(VALUE_TRACK), At(VALUE_VOLUME)]
    }

    ghost function View(): Menu
      reads this, paramMax, paramMin, paramOld, paramNew
      requires Valid()
    {
      Menu(state, backup, Known(paramFlag), Asked(paramFlag), Values(), paramId, paramIdMin, paramIdMax, secondary,
           tagParam, tagValue, mode, connected, drain, brightness, timer, tagTimer, boots, log)
    }

    /** menu_init, before anything else has happened. */
    constructor ()
      ensures Valid() && fresh(paramMax) && fresh(paramMin) && fresh(paramOld) && fresh(paramNew)
      ensures View() == MenuModel.Reset(View()) && mode == MenuMode && !connected && !drain
      ensures brightness == FLUSH_BRIGHTNESS_MIN && timer == tagTimer == None && boots == 0 && log == []
    {
      paramMax := new byte[VALUE_MAX](_ => 0);
      paramMin := new byte[VALUE_MAX](_ => 0);
      paramOld := new byte[VALUE_MAX](_ => 0);
      paramNew := new byte[VALUE_MAX](_ => 0);
      mode, connected, drain, brightness := MenuMode, false, false, FLUSH_BRIGHTNESS_MIN;
      paramIdMin, paramIdMax := PARAM_BRIGHTNESS, PARAM_BRIGHTNESS;
      timer, tagTimer, boots, log := None, None, 0, [];
      new;
      Reset();
    }

    method Send(message: Message)
      requires Valid()
      modifies this`log
      ensures View() == MenuModel.Send(old(View()), message)
    {
      if connected {
        log := log + [message];
      }
    }

    method ModeSet(newMode: Mode)
      requires Valid()
      modifies this`mode, this`connected
      ensures View() == MenuModel.ModeSet(old(View()), newMode)
    {
      if mode == newMode {
        return;
      }
      mode := newMode;
      if mode == Watch {
        connected := false;
      } else if mode == Radio {
        connected := true;
      }
    }

    method BrightnessSet(b: byte)
      requires Valid()
      modifies this`brightness
      ensures View() == MenuModel.BrightnessSet(old(View()), b)
    {
      if b > FLUSH_BRIGHTNESS_MAX {
        return;
      }
      brightness := b;
    }

    method Schedule(delay: nat)
      requires Valid()
      modifies this`timer
      ensures View() == MenuModel.Schedule(old(View()), delay)
    {
      timer := None;
      timer := Some(delay);
    }

    method HasFlag(id: nat) returns (has: bool)
      requires id < VALUE_MAX
      ensures has == (id in Known(paramFlag))
    {
      has := paramFlag & Flag(id) != 0;
    }

    method AnyFlag(id: nat) returns (any: bool)
      requires id < VALUE_MAX
      ensures any == (id in Known(paramFlag) + Asked(paramFlag))
    {
      MaskFlag(paramFlag, id);
      any := paramFlag & (Flag(id) | FlagSent(id)) != 0;
    }

    method BothFlags(id: nat) returns (both: bool)
      requires id < VALUE_MAX
      ensures both == (id in Known(paramFlag) && id in Asked(paramFlag))
    {
      MaskFlag(paramFlag, id);
      both := paramFlag & (Flag(id) | FlagSent(id)) == Flag(id) | FlagSent(id);
    }

    method MarkSent(id: nat)
      requires id < VALUE_MAX
      modifies this`paramFlag
      ensures Known(paramFlag) == old(Known(paramFlag)) && Asked(paramFlag) == old(Asked(paramFlag)) + {id}
    {
      SetAsked(paramFlag, id);
      paramFlag := paramFlag | FlagSent(id);
    }

    method MarkKnown(id: nat)
      requires id < VALUE_MAX
      modifies this`paramFlag
      ensures Known(paramFlag) == old(Known(paramFlag)) + {id} && Asked(paramFlag) == old(Asked(paramFlag))
    {
      SetKnown(paramFlag, id);
      paramFlag := paramFlag | Flag(id);
    }

    method QuerySource()
      requires Valid()
      modifies this`log, this`paramFlag
      ensures View() == MenuModel.QuerySource(old(View()))
    {
      if paramId != PARAM_TRACK && paramId != PARAM_VOLUME && paramId != PARAM_PLAYLIST {
        return;
      }
      var id := ValueId(paramId);
      var any := AnyFlag(id);
      if any {
        return;
      }
      Send(QueryNumber(ParameterOf(paramId)));
      MarkSent(id);
    }

    method SetParamRange(newState: State)
      requires Valid()
      modifies this`paramId, this`paramIdMin, this`paramIdMax
      ensures View() == MenuModel.SetParamRange(old(View()), newState)
    {
      if newState == Apply {
        paramIdMin, paramIdMax := PARAM_CANCEL, PARAM_APPLY;
      } else if newState == Param || newState == Value {
        paramIdMin := if connected then PARAM_POWER_OFF else PARAM_POWER_ON;
        paramIdMax := if connected then PARAM_REBOOT else PARAM_POWER_ON;
      }
      if newState != Value {
        paramId := paramIdMin;
      }
    }

    method SwitchTag(newState: State)
      requires Valid()
      modifies this`log, this`drain, this`mode, this`connected
      ensures View() == MenuModel.SwitchTag(old(View()), newState)
    {
      if state == Tag {
        Send(Suspend);
        drain := true;
        ModeSet(MenuMode);
      } else if newState == Tag {
        drain := false;
        Send(Resume);
        ModeSet(Radio);
      }
    }

    method SetState(newState: State)
      requires Valid()
      modifies this
      ensures View() == MenuModel.SetState(old(View()), newState)
    {
      if state == newState {
        return;
      }
      SwitchTag(newState);
      AdjustRange(newState);
      state := newState;
    }

    method AdjustRange(newState: State)
      requires Valid()
      modifies this`secondary, this`paramId, this`paramIdMin, this`paramIdMax
      ensures View() == MenuModel.AdjustRange(old(View()), newState)
    {
      if (state == Idle || state == Apply) && (newState == Param || newState == Value) {
        SetParamRange(newState);
      } else if (state == Param || state == Value) && newState == Apply {
        secondary := paramId;
        SetParamRange(newState);
      }
    }

    method ResetValues()
      requires Valid()
      modifies paramMax, paramMin, paramOld, paramNew
      ensures Values() == Fresh(brightness)
    {
      paramMax[VALUE_BRIGHTNESS] := 0xF;
      paramMin[VALUE_BRIGHTNESS] := 0;
      paramMax[VALUE_PLAYLIST], paramMin[VALUE_PLAYLIST] := 0, 0;
      paramMax[VALUE_TRACK], paramMin[VALUE_TRACK] := 0, 0;
      paramMax[VALUE_VOLUME], paramMin[VALUE_VOLUME] := 0, 0;
      paramOld[VALUE_BRIGHTNESS], paramNew[VALUE_BRIGHTNESS] := brightness, brightness;
      paramOld[VALUE_PLAYLIST], paramNew[VALUE_PLAYLIST] := 0, 0;
      paramOld[VALUE_TRACK], paramNew[VALUE_TRACK] := 0, 0;
      paramOld[VALUE_VOLUME], paramNew[VALUE_VOLUME] := 0, 0;
    }

    method ResetSelection()
      requires Valid()
      modifies this`paramFlag, this`paramId, this`secondary, this`tagParam, this`tagValue
      ensures Known(paramFlag) == Asked(paramFlag) == {VALUE_BRIGHTNESS}
      ensures paramId == secondary == tagParam == PARAM_TRACK && tagValue == 0
    {
      paramFlag := FLAG_BRIGHTNESS | FLAG_BRIGHTNESS_SENT;
      OnlyBrightness();
      paramId, secondary := PARAM_TRACK, PARAM_TRACK;
      tagParam, tagValue := PARAM_TRACK, 0;
    }

    method Reset()
      requires Valid()
      modifies this, paramMax, paramMin, paramOld, paramNew
      ensures View() == MenuModel.Reset(old(View()))
    {
      ResetValues();
      ResetSelection();
      backup, state := MenuMode, Idle;
    }

    method Start(rotor: nat)
      requires Valid()
      modifies this, paramMax, paramMin, paramOld, paramNew
      ensures View() == MenuModel.Start(old(View()), rotor)
    {
      if rotor == ROTOR_APPLY {
        return;
      }
      Reset();
      TakeOver();
    }

    method TakeOver()
      requires Valid()
      modifies this`backup, this`mode, this`connected, this`log, this`drain
      ensures View() == MenuModel.TakeOver(old(View()))
    {
      backup := mode;
      ModeSet(MenuMode);
      Send(Suspend);
      drain := true;
    }

    method GiveBack()
      requires Valid()
      modifies this`mode, this`connected, this`log, this`drain
      ensures View() == MenuModel.GiveBack(old(View()))
    {
      drain := false;
      ModeSet(backup);
      Send(Resume);
    }

    method SendChange(param: nat)
      requires Valid()
      modifies this`log
      ensures View() == MenuModel.SendChange(old(View()), param)
    {
      var id := ValueId(param);
      var both := BothFlags(id);
      if both {
        var (sign, abs) := SignAbs(paramOld[id], paramNew[id]);
        if param != PARAM_PLAYLIST || abs != 0 {
          Send(ParamSet(ParameterOf(param), sign, abs));
        }
      }
    }

    method TakeEffect(param: nat)
      requires Valid()
      modifies this`log, this`brightness, this`boots
      ensures View() == MenuModel.TakeEffect(old(View()), param)
    {
      if param == PARAM_BRIGHTNESS {
        if paramOld[VALUE_BRIGHTNESS] != paramNew[VALUE_BRIGHTNESS] {
          BrightnessSet(paramNew[VALUE_BRIGHTNESS]);
        }
      } else if param == PARAM_BRIGHTNESS_MIN {
        BrightnessSet(FLUSH_BRIGHTNESS_MIN);
      } else if param == PARAM_BRIGHTNESS_MIDDLE {
        BrightnessSet(FLUSH_BRIGHTNESS_MIDDLE);
      } else if param == PARAM_BRIGHTNESS_MAX {
        BrightnessSet(FLUSH_BRIGHTNESS_MAX);
      } else if FromPi(param) {
        SendChange(param);
      } else if param == PARAM_POWER_ON {
        boots := boots + 1;
      } else {
        var order := Order(param);
        if order.Some? {
          Send(order.value);
        }
      }
    }

    /** The closing timer's callback. */
    method Stop()
      requires Valid()
      modifies this, paramMax, paramMin, paramOld, paramNew
      ensures View() == MenuModel.Stop(old(View()))
    {
      if state == Tag {
        SetState(Value);
      }
      var chosen :=
        if state == Idle || (state == Apply && paramId == PARAM_CANCEL) then PARAM_CANCEL
        else if state == Apply then secondary
        else paramId;
      TakeEffect(chosen);
      GiveBack();
      Reset();
    }

    /** The name timer's callback. */
    method TagRequest()
      requires Valid()
      modifies this`log
      ensures View() == MenuModel.TagRequest(old(View()))
    {
      if state != Value || paramId != tagParam {
        return;
      }
      var id := if paramId == PARAM_PLAYLIST then VALUE_PLAYLIST else VALUE_TRACK;
      if tagValue != paramNew[id] {
        return;
      }
      Send(QueryName(if paramId == PARAM_PLAYLIST then PARAMETER_PLAYLIST else PARAMETER_TRACK, tagValue));
    }

    method ScheduleTag()
      requires Valid()
      modifies this`tagParam, this`tagValue, this`tagTimer
      ensures View() == MenuModel.ScheduleTag(old(View()))
    {
      if state != Value || (paramId != PARAM_PLAYLIST && paramId != PARAM_TRACK) {
        return;
      }
      tagTimer := None;
      tagParam := paramId;
      tagValue := paramNew[ValueId(paramId)];
      tagTimer := Some(DELAY_TAG);
    }

    method SelectParam(clockwise: bool)
      requires Valid()
      modifies this`paramId
      ensures View() == MenuModel.SelectParam(old(View()), clockwise)
    {
      if clockwise && paramId < paramIdMax {
        paramId := paramId + 1;
      } else if !clockwise && paramId > paramIdMin {
        paramId := paramId - 1;
      }
    }

    method SelectValue(clockwise: bool)
      requires Valid()
      modifies paramNew
      ensures View() == MenuModel.SelectValue(old(View()), clockwise)
    {
      var id := ValueId(paramId);
      var known := HasFlag(id);
      if !Adjustable(paramId) || !known {
        return;
      }
      Turn(id, clockwise);
    }

    method Turn(id: nat, clockwise: bool)
      requires Valid() && id < VALUE_MAX
      modifies paramNew
      ensures Values() == old(Values())[id := Turned(old(Values())[id], clockwise)]
    {
      if clockwise && paramNew[id] < paramMax[id] {
        paramNew[id] := paramNew[id] + 1;
      } else if !clockwise && paramNew[id] > paramMin[id] {
        paramNew[id] := paramNew[id] - 1;
      }
    }

    method SelectApply(clockwise: bool)
      requires Valid()
      modifies this`paramId
      ensures View() == MenuModel.SelectApply(old(View()), clockwise)
    {
      paramId := if clockwise then PARAM_APPLY else PARAM_CANCEL;
    }

    method HandleRotor(rotor: nat, clockwise: bool)
      requires Valid()
      modifies this, paramMax, paramMin, paramOld, paramNew
      ensures View() == MenuModel.HandleRotor(old(View()), rotor, clockwise)
    {
      var rotorState := RotorState(rotor);
      if rotorState == Apply && state == Idle {
        return;
      }
      if state == rotorState {
        Click(rotor, clockwise);
      } else {
        Change(rotor, clockwise);
      }
      Schedule(if rotorState == Apply then DELAY_APPLY else DELAY_SELECT);
    }

    method Click(rotor: nat, clockwise: bool)
      requires Valid()
      modifies this, paramMax, paramMin, paramOld, paramNew
      ensures View() == MenuModel.Click(old(View()), rotor, clockwise)
    {
      if state == Apply {
        SelectApply(clockwise);
      } else if state == Param {
        SelectParam(clockwise);
      } else if state == Value {
        var wanted := RotorParam(connected, rotor);
        if paramId != wanted {
          paramId := wanted;
          QuerySource();
        }
        SelectValue(clockwise);
        ScheduleTag();
      }
    }

    method Change(rotor: nat, clockwise: bool)
      requires Valid()
      modifies this, paramMax, paramMin, paramOld, paramNew
      ensures View() == MenuModel.Change(old(View()), rotor, clockwise)
    {
      var rotorState := RotorState(rotor);
      if state == Idle {
        Start(rotor);
      }
      SetState(rotorState);
      if rotorState == Apply {
        SelectApply(clockwise);
      } else if rotorState == Param {
        SelectParam(clockwise);
      } else {
        paramId := RotorParam(connected, rotor);
        SelectValue(clockwise);
        QuerySource();
      }
    }

    method SetRange(id: nat, value: byte, low: byte, high: byte)
      requires Valid() && id < VALUE_MAX
      modifies paramMax, paramMin, paramOld, paramNew
      ensures Values() == old(Values())[id := Range(low, high, value, value)]
    {
      paramOld[id], paramNew[id], paramMin[id], paramMax[id] := value, value, low, high;
    }

    method ParameterValue(parameter: byte, value: byte, low: byte, high: byte) returns (ok: bool)
      requires Valid()
      modifies this, paramMax, paramMin, paramOld, paramNew
      ensures (View(), ok) == MenuModel.ParameterValue(old(View()), parameter, value, low, high)
    {
      if parameter != PARAMETER_VOLUME && parameter != PARAMETER_TRACK && parameter != PARAMETER_PLAYLIST {
        return false;
      }
      var id := ValueId(ParamOf(parameter));
      SetRange(id, value, low, high);
      MarkKnown(id);
      Schedule(DELAY_SELECT);
      ok := true;
    }

    method ParameterName(parameter: byte, id: byte) returns (ok: bool)
      requires Valid()
      modifies this
      ensures (View(), ok) == MenuModel.ParameterName(old(View()), parameter, id)
    {
      if parameter != PARAMETER_PLAYLIST && parameter != PARAMETER_TRACK {
        return false;
      }
      ok := true;
      var named := if parameter == PARAMETER_PLAYLIST then PARAM_PLAYLIST else PARAM_TRACK;
      if named != paramId || named != tagParam || id != tagValue {
        return;
      }
      Schedule(DELAY_READ);
      SetState(Tag);
    }
  }
}
