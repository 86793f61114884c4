/** The menu's promises over every run from a closed menu. */
module MenuTheorems {
  import opened Constants
  import opened MenuModel
  import opened MenuRuns
  import opened MenuLog
  import opened HandleObjects

  /** Everything the menu keeps. */
  predicate Kept(m: Menu, home: Mode, past: Past) {
    && Shape(m, home) && PauseRight(m) && BrightnessRight(m)
    && AskedRight(m, past, PARAM_TRACK) && AnsweredRight(m, past, PARAM_TRACK)
    && AskedRight(m, past, PARAM_VOLUME) && AnsweredRight(m, past, PARAM_VOLUME)
    && AskedRight(m, past, PARAM_PLAYLIST) && AnsweredRight(m, past, PARAM_PLAYLIST)
  }

  lemma StepKeeps(m: Menu, home: Mode, past: Past, ev: Event)
    requires Kept(m, home, past) && Legal(m, ev)
    ensures Kept(Do(m, ev), home, Note(m, past, ev))
  {
    ShapeKept(m, home, ev);
    PauseKept(m, home, ev);
    BrightnessKept(m, home, ev);
    AskedKept(m, home, past, ev, PARAM_TRACK);
    AskedKept(m, home, past, ev, PARAM_VOLUME);
    AskedKept(m, home, past, ev, PARAM_PLAYLIST);
    AnsweredKept(m, home, past, ev, PARAM_TRACK);
    AnsweredKept(m, home, past, ev, PARAM_VOLUME);
    AnsweredKept(m, home, past, ev, PARAM_PLAYLIST);
  }

  /** `events` are legal one after the other and lead from `m` to `m2`. */
  ghost predicate Leads(m: Menu, home: Mode, past: Past, events: seq<Event>, m2: Menu, past2: Past)
    requires Kept(m, home, past)
    decreases |events|
  {
    if events == [] then m == m2 && past == past2
    else
      && Legal(m, events[0])
      && (StepKeeps(m, home, past, events[0]);
          Leads(Do(m, events[0]), home, Note(m, past, events[0]), events[1..], m2, past2))
  }

  lemma {:induction false} RunKeeps(m: Menu, home: Mode, past: Past, events: seq<Event>, m2: Menu, past2: Past)
    requires Kept(m, home, past) && Leads(m, home, past, events, m2, past2)
    ensures Kept(m2, home, past2)
    decreases |events|
  {
    if events != [] {
      StepKeeps(m, home, past, events[0]);
      RunKeeps(Do(m, events[0]), home, Note(m, past, events[0]), events[1..], m2, past2);
    }
  }

  /** A closed menu that has said nothing yet, in the watch or radio mode `home`. */
  predicate Closed(m: Menu, home: Mode) {
    && m.state == Idle && m.mode == home != MenuMode && m.connected == (home == Radio)
    && m.backup == MenuMode && !m.drain && m.timer == None && m.log == [] && InReach(m)
  }

  /** Reached from a closed menu by a run. */
  ghost predicate Reached(m: Menu, home: Mode, past: Past) {
    exists m0: Menu, events :: Closed(m0, home) && Leads(m0, home, Past([], map[]), events, m, past)
  }

  lemma ReachedKept(m: Menu, home: Mode, past: Past)
    requires Reached(m, home, past)
    ensures Kept(m, home, past)
  {
    var m0: Menu, events :| Closed(m0, home) && Leads(m0, home, Past([], map[]), events, m, past);
    RunKeeps(m0, home, Past([], map[]), events, m, past);
  }

  // ----- sessions -----

  /** The SUSPEND (true) and RESUME (false) messages, in order. */
  function Marks(log: seq<Message>): seq<bool>
    decreases |log|
  {
    if log == [] then []
    else
      Marks(log[..|log| - 1])
      + if log[|log| - 1] == Suspend then [true] else if log[|log| - 1] == Resume then [false] else []
  }

  /** SUSPEND and RESUME alternate, SUSPEND first, exactly when Paused says so. */
  lemma {:induction false} PausedAlternates(log: seq<Message>)
    ensures Paused(log).Some? <==> forall i :: 0 <= i < |Marks(log)| ==> Marks(log)[i] == (i % 2 == 0)
    ensures Paused(log).Some? ==> Paused(log).value == (|Marks(log)| % 2 == 1)
    decreases |log|
  {
    if log != [] {
      var front := Marks(log[..|log| - 1]);
      PausedAlternates(log[..|log| - 1]);
      assert forall i :: 0 <= i < |front| ==> Marks(log)[i] == front[i];
      assert |Marks(log)| == |front| + 1 ==> Marks(log)[|front|] == (log[|log| - 1] == Suspend);
    }
  }

  /** In every run: the display drains exactly while parameters are shown; the Pi has been told
      to suspend and resume in turn, and is suspended exactly while a connected menu drains; a
      closed menu is back in the mode the run began in, and an open one can be closed. */
  lemma SessionDiscipline(m: Menu, home: Mode, past: Past)
    requires Reached(m, home, past)
    ensures m.drain <==> m.state in {Apply, Param, Value}
    ensures forall i :: 0 <= i < |Marks(m.log)| ==> Marks(m.log)[i] == (i % 2 == 0)
    ensures |Marks(m.log)| % 2 == (if m.drain && m.connected then 1 else 0)
    ensures m.state == Idle ==> m.mode == home && m.timer == None
    ensures m.state != Idle ==>
              && Legal(m, Timeout) && Sound(m) && Do(m, Timeout).state == Idle && Do(m, Timeout).mode == home
              && !Do(m, Timeout).drain
  {
    ReachedKept(m, home, past);
    PausedAlternates(m.log);
    if m.state != Idle {
      StopFrame(m, home);
    }
  }

  // ----- values -----

  function Clockwise(clicks: seq<bool>): nat
    decreases |clicks|
  {
    if clicks == [] then 0 else Clockwise(clicks[..|clicks| - 1]) + if clicks[|clicks| - 1] then 1 else 0
  }

  /** The range is one, and a value outside it has been clicked far enough to come in. */
  predicate ComesInRange(heard: Heard) {
    var r := heard.range;
    var up := Clockwise(heard.clicks);
    && r.low <= r.high
    && (r.was < r.low ==> up >= r.low - r.was)
    && (r.was > r.high ==> |heard.clicks| - up >= r.was - r.high)
  }

  lemma {:induction false} ClickedFrom(r: Range, clicks: seq<bool>)
    requires r.now == r.was && r.low <= r.high
    ensures var now := Clicked(r, clicks).now;
            var up := Clockwise(clicks);
            && Clicked(r, clicks) == r.(now := now) && up <= |clicks|
            && (if r.was < r.low && up < r.low - r.was then now == r.was + up
                else if r.was > r.high && |clicks| - up < r.was - r.high then now == r.was - (|clicks| - up)
                else r.low <= now <= r.high)
    decreases |clicks|
  {
    if clicks != [] {
      ClickedFrom(r, clicks[..|clicks| - 1]);
    }
  }

  lemma {:induction false} ClickedRange(r: Range, clicks: seq<bool>)
    ensures Clicked(r, clicks) == r.(now := Clicked(r, clicks).now)
    decreases |clicks|
  {
    if clicks != [] {
      ClickedRange(r, clicks[..|clicks| - 1]);
    }
  }

  lemma ClickedInRange(heard: Heard)
    requires heard.range.now == heard.range.was
    ensures var r := Clicked(heard.range, heard.clicks);
            && r == heard.range.(now := r.now)
            && (r.low <= r.now <= r.high <==> ComesInRange(heard))
  {
    ClickedRange(heard.range, heard.clicks);
    if heard.range.low <= heard.range.high {
      ClickedFrom(heard.range, heard.clicks);
    }
  }

  /** In every run a value lies between what the Pi last answered and the range it answered, and
      is in that range if and only if the answer was, or the knob has since been turned far
      enough; the brightness is always in its range; each value is asked for at most once a
      session. */
  lemma ValuesInRange(m: Menu, home: Mode, past: Past, param: nat)
    requires Reached(m, home, past) && FromPi(param)
    ensures Sound(m) && forall k :: 0 <= k < VALUE_MAX ==> Bounded(m.values[k])
    ensures m.state != Idle && ValueId(param) in past.answers ==>
              var heard := past.answers[ValueId(param)];
              var now := m.values[ValueId(param)].now;
              && (heard.range.low <= now <= heard.range.high <==> ComesInRange(heard))
    ensures m.state != Idle ==> m.values[VALUE_BRIGHTNESS].now <= FLUSH_BRIGHTNESS_MAX
    ensures 0 <= Asked(m, past, param) <= 1
  {
    ReachedKept(m, home, past);
    if m.state != Idle && ValueId(param) in past.answers {
      ClickedInRange(past.answers[ValueId(param)]);
    }
  }

  /** What a signed change makes of a value. */
  function Moved(value: byte, sign: byte, abs: byte): int {
    if sign == PARAMETER_POSITIVE then value + abs else value - abs
  }

  lemma SignAbsMoves(src: byte, dst: byte)
    ensures var (sign, abs) := SignAbs(src, dst);
            && Moved(src, sign, abs) == dst && NewPlaylistId(src, sign, abs) == dst
            && (abs == 0 <==> src == dst)
  {
  }

  /** A change may be sent: the value was asked for and answered in this session. */
  predicate Warranted(m: Menu, past: Past, param: nat)
    requires Sound(m)
  {
    var id := ValueId(param);
    && Asked(m, past, param) == 1 && id in past.answers
    && (param == PARAM_PLAYLIST ==> m.values[id].now != past.answers[id].range.was)
  }

  /** The last two things a connected menu says when it closes on a value that the Pi keeps. */
  lemma StopSays(m: Menu, home: Mode, param: nat)
    requires Shape(m, home) && m.state != Idle && m.connected
    requires FromPi(param) && Chosen(Closing(m)) == param
    ensures Stop(m).log == SendChange(Closing(m), param).log + [Resume]
    ensures Closing(m).connected && Closing(m).values == m.values
    ensures Closing(m).known == m.known && Closing(m).asked == m.asked
  {
    var m1 := Closing(m);
    SetStateFrame(m, Value);
    SetStateOpen(m, home, Value);
    TakeEffectFrame(m1, param);
  }

  /** When the menu closes on a value that the Pi keeps, it sends a change exactly when that is
      warranted; the change takes the Pi's last answer to the value displayed, and a Pi whose
      playlist id is still the one answered loads that value. */
  lemma ChangeAgrees(m: Menu, home: Mode, past: Past, param: nat)
    requires Reached(m, home, past) && m.state != Idle && m.connected
    requires FromPi(param) && Chosen(Closing(m)) == param
    ensures Sound(m)
    ensures Warranted(m, past, param) ==>
              var heard := past.answers[ValueId(param)];
              var was := heard.range.was;
              var now := m.values[ValueId(param)].now;
              var (sign, abs) := SignAbs(was, now);
              && Stop(m).log == Closing(m).log + [ParamSet(ParameterOf(param), sign, abs), Resume]
              && Moved(was, sign, abs) == now && NewPlaylistId(was, sign, abs) == now
              && (heard.range.low <= now <= heard.range.high <==> ComesInRange(heard))
    ensures !Warranted(m, past, param) ==> Stop(m).log == Closing(m).log + [Resume]
  {
    ReachedKept(m, home, past);
    StopSays(m, home, param);
    var r := m.values[ValueId(param)];
    SignAbsMoves(r.was, r.now);
    if ValueId(param) in past.answers {
      ClickedInRange(past.answers[ValueId(param)]);
    }
  }

  lemma StopBrightness(m: Menu)
    requires Sound(m)
    ensures Stop(m).brightness == TakeEffect(Closing(m), Chosen(Closing(m))).brightness
    ensures Closing(m).values == m.values && Closing(m).brightness == m.brightness
  {
    SetStateFrame(m, Value);
  }

  lemma EffectBrightness(m: Menu, param: nat)
    requires InReach(m) && m.values[VALUE_BRIGHTNESS].was == m.brightness
    requires m.values[VALUE_BRIGHTNESS].high == 15
    ensures param == PARAM_BRIGHTNESS ==> TakeEffect(m, param).brightness == m.values[VALUE_BRIGHTNESS].now
    ensures param == PARAM_CANCEL || FromPi(param) ==> TakeEffect(m, param).brightness == m.brightness
  {
  }

  lemma ClosingRange(m: Menu)
    requires InReach(m)
    ensures InReach(Closing(m)) && Closing(m).values == m.values && Closing(m).brightness == m.brightness
  {
    SetStateFrame(m, Value);
  }

  /** Closing on the brightness sets it to the value displayed, and no other choice of a value
      or of nothing touches it. */
  lemma BrightnessAgrees(m: Menu, home: Mode, past: Past)
    requires Reached(m, home, past) && m.state != Idle
    ensures Sound(m)
    ensures var param := Chosen(Closing(m));
            && (param == PARAM_BRIGHTNESS ==> Stop(m).brightness == m.values[VALUE_BRIGHTNESS].now)
            && (param == PARAM_CANCEL || FromPi(param) ==> Stop(m).brightness == m.brightness)
  {
    ReachedKept(m, home, past);
    StopBrightness(m);
    ClosingRange(m);
    EffectBrightness(Closing(m), Chosen(Closing(m)));
  }

  /** What turning the APPLY knob does to an open menu that is not at APPLY already. */
  lemma ApplyFrame(m: Menu, home: Mode, clockwise: bool)
    requires Sound(m) && Session(m, home) && (m.state == Param || m.state == Value || m.state == Tag)
    ensures var m1 := HandleRotor(m, ROTOR_APPLY, clockwise);
            && m1.state == Apply && m1.secondary == (if m.state == Tag then m.secondary else m.param)
            && m1.param == (if clockwise then PARAM_APPLY else PARAM_CANCEL)
            && m1.log == m.log + (if m.state == Tag then [Suspend] else []) && m1.timer == Some(DELAY_APPLY)
            && m1.boots == m.boots && m1.brightness == m.brightness
            && m1.connected == m.connected && m1.backup == m.backup
  {
    assert m.log + [] == m.log;
  }

  lemma CancelStops(m: Menu, home: Mode)
    requires Sound(m) && Session(m, home) && m.state == Apply && m.param == PARAM_CANCEL
    ensures Stop(m).log == m.log + (if m.connected then [Resume] else [])
    ensures Stop(m).boots == m.boots && Stop(m).brightness == m.brightness
  {
  }

  /** Turning the APPLY knob counter-clockwise closes an open menu on nothing, which tells a
      connected Pi no more than RESUME.  Turning it clockwise closes the menu on the parameter
      selected if and only if no name is shown or the parameter that APPLY was last turned for
      happens to be the one selected. */
  lemma ApplyOrCancel(m: Menu, home: Mode, past: Past)
    requires Reached(m, home, past) && m.state != Idle && m.state != Apply
    ensures Sound(m)
    ensures Chosen(HandleRotor(m, ROTOR_APPLY, true)) == m.param <==> m.state != Tag || m.secondary == m.param
    ensures m.state == Tag ==> Chosen(HandleRotor(m, ROTOR_APPLY, true)) == m.secondary
    ensures var m1 := HandleRotor(m, ROTOR_APPLY, false);
            && Chosen(m1) == PARAM_CANCEL
            && m1.log == m.log + (if m.state == Tag then [Suspend] else [])
            && Stop(m1).log == m1.log + (if m.connected then [Resume] else [])
            && Stop(m1).boots == m.boots && Stop(m1).brightness == m.brightness
    ensures forall clockwise ::
              && Closing(HandleRotor(m, ROTOR_APPLY, clockwise)) == HandleRotor(m, ROTOR_APPLY, clockwise)
              && HandleRotor(m, ROTOR_APPLY, clockwise).timer == Some(1)
  {
    ReachedKept(m, home, past);
    ApplyFrame(m, home, true);
    ApplyFrame(m, home, false);
    RotorKeeps(m, home, ROTOR_APPLY, false);
    CancelStops(HandleRotor(m, ROTOR_APPLY, false), home);
  }
}
