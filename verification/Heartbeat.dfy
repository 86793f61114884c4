/** The heartbeat (src/avr/heartbeat.c): it counts verifications since the last confirmation,
    provokes an answer from the second on and reports when too many were missed. */
module HeartbeatTimer {
  import opened Constants
  import opened CronTimer

  const PROVOKE_LIMIT: byte := 1

  datatype Heart = Heart(misses: byte, max: byte, active: bool)

  datatype Beat = Quiet | Provoke | Report

  /** max_misses is a uint8_t. */
  function StartHeart(max: byte): Heart {
    Heart(0, Inc(max), true)
  }

  function Confirm(h: Heart): Heart {
    h.(misses := 0)
  }

  /** The cron callback; a cancelled heartbeat is not called. */
  function VerifyHeart(h: Heart): (Heart, Beat) {
    if !h.active then (h, Quiet)
    else
      var misses := Inc(h.misses);
      if misses >= h.max then (h.(misses := misses, active := false), Report)
      else (h.(misses := misses), if misses > PROVOKE_LIMIT then Provoke else Quiet)
  }

  /** What `n` verifications in a row do. */
  function Beats(h: Heart, n: nat): (Heart, seq<Beat>)
    decreases n
  {
    if n == 0 then (h, [])
    else
      var (h1, beat) := VerifyHeart(h);
      var (h2, rest) := Beats(h1, n - 1);
      (h2, [beat] + rest)
  }

  /** The k-th verification since a start or a confirmation. */
  function BeatAt(max: byte, k: nat): Beat {
    if k == 1 + max then Report else if 2 <= k <= max then Provoke else Quiet
  }

  /** From `misses` verifications after the last confirmation on, the report comes at exactly
      the (1 + max)-th and the provocations at exactly the 2nd to the max-th; then nothing. */
  lemma {:induction false} MissedBeats(h: Heart, max: byte, n: nat)
    requires max < 255 && h.max == 1 + max && (h.active ==> h.misses <= max)
    ensures var (h1, beats) := Beats(h, n);
            && |beats| == n
            && (forall i :: 0 <= i < n ==> beats[i] == if h.active then BeatAt(max, h.misses + i + 1) else Quiet)
            && h1.max == h.max && (h1.active <==> h.active && h.misses + n <= max)
            && (h1.active ==> h1.misses == h.misses + n)
    decreases n
  {
    if n > 0 {
      MissedBeats(VerifyHeart(h).0, max, n - 1);
    }
  }

  lemma {:induction false} SilentBeats(h: Heart, n: nat)
    requires !h.active
    ensures |Beats(h, n).1| == n && forall i :: 0 <= i < n ==> Beats(h, n).1[i] == Quiet
    decreases n
  {
    if n > 0 {
      SilentBeats(h, n - 1);
    }
  }

  /** A started heartbeat that is never confirmed reports exactly once, at the (1 + max)-th
      verification, if and only if max is below 255; 255 wraps, and it reports at the first. */
  lemma StartedBeats(max: byte, n: nat)
    requires n > 0
    ensures var beats := Beats(StartHeart(max), n).1;
            && |beats| == n
            && (forall i :: 0 <= i < n ==>
                  (beats[i] == Report <==> i == if max < 255 then max as int else 0))
  {
    if max < 255 {
      MissedBeats(StartHeart(max), max, n);
    } else {
      var h1 := VerifyHeart(StartHeart(max)).0;
      SilentBeats(h1, n - 1);
    }
  }
}

/** The three modes of the device (src/avr/mode.c) and what runs in each of them. */
module ModeControl {
  import opened Constants
  import opened CronTimer
  import opened HeartbeatTimer

  const CRON_ID_FLUSH := 2
  const CRON_ID_HEARTBEAT := 3
  const SLAVE_DELAY: byte := 5
  const HB_DELAY: byte := 50
  const HB_MISS: byte := 3

  /** `entered` lists the modes entered so far and `beats` what the heartbeat said. */
  datatype Station = Station(
    mode: Mode, connected: bool, misses: byte, max: byte, cron: Cron, entered: seq<Mode>, beats: seq<Beat>)

  datatype Event = Set(mode: Mode) | Confirmed | Verified | Cron(ev: CronTimer.Event)

  predicate Sound(s: Station) {
    CronTimer.Sound(s.cron)
  }

  function HeartOf(s: Station): Heart
    requires Sound(s)
  {
    Heart(s.misses, s.max, s.cron.callbacks[CRON_ID_HEARTBEAT])
  }

  /** heartbeat_start. */
  function HeartStart(s: Station, delay: byte, max: byte): (s1: Station)
    requires Sound(s)
    ensures Sound(s1)
  {
    var h := StartHeart(max);
    s.(misses := h.misses, max := h.max, cron := EnableSlot(s.cron, CRON_ID_HEARTBEAT, delay, true))
  }

  function ModeSet(s: Station, mode: Mode): (s1: Station)
    requires Sound(s)
    ensures Sound(s1)
  {
    if s.mode == mode then s
    else
      var off := DisableSlot(DisableSlot(s.cron, CRON_ID_HEARTBEAT), CRON_ID_FLUSH);
      var s1 := s.(mode := mode, cron := off, entered := s.entered + [mode]);
      match mode
      case MenuMode => s1
      case Watch => s1.(connected := false)
      case Radio =>
        var on := s1.(cron := EnableSlot(off, CRON_ID_FLUSH, SLAVE_DELAY, true));
        HeartStart(on, HB_DELAY, HB_MISS).(connected := true)
  }

  /** The heartbeat's callback with its report and provoke callbacks. */
  function HeartVerify(s: Station): (s1: Station)
    requires Sound(s)
    ensures Sound(s1)
  {
    var (h, beat) := VerifyHeart(HeartOf(s));
    var s1 := s.(misses := h.misses, beats := s.beats + [beat]);
    if beat == Report then
      ModeSet(s1.(cron := DisableSlot(s.cron, CRON_ID_HEARTBEAT)), Watch)
    else s1
  }

  function Do(s: Station, ev: Event): (s1: Station)
    requires Sound(s)
    ensures Sound(s1)
  {
    match ev
    case Set(mode) => ModeSet(s, mode)
    case Confirmed => s.(misses := 0)
    case Verified => HeartVerify(s)
    case Cron(e) => s.(cron := CronTimer.Do(s.cron, e))
  }

  /** Other users of cron keep to their own slots. */
  predicate Legal(ev: Event) {
    ev.Cron? ==> LeftAlone(ev.ev, CRON_ID_FLUSH) && LeftAlone(ev.ev, CRON_ID_HEARTBEAT)
  }

  function After(s: Station, events: seq<Event>): (s1: Station)
    requires Sound(s)
    ensures Sound(s1)
    decreases |events|
  {
    if events == [] then s else After(Do(s, events[0]), events[1..])
  }

  /** The last of WATCH and RADIO that was entered is RADIO. */
  predicate LastIsRadio(entered: seq<Mode>)
    decreases |entered|
  {
    entered != [] &&
    (var last := entered[|entered| - 1];
     last == Radio || (last == MenuMode && LastIsRadio(entered[..|entered| - 1])))
  }

  /** The flush and heartbeat slots are live exactly in radio mode, with every 5th tick and every
      50th; there the heartbeat is below its limit of 3 misses; the connection flag remembers the last
      of WATCH and RADIO. */
  predicate Right(s: Station) {
    && Sound(s)
    && (s.cron.callbacks[CRON_ID_FLUSH] <==> s.mode == Radio)
    && (s.cron.callbacks[CRON_ID_HEARTBEAT] <==> s.mode == Radio)
    && (s.mode == Radio ==> s.cron.factors[CRON_ID_FLUSH] == 5 && s.cron.factors[CRON_ID_HEARTBEAT] == 50)
    && (s.mode == Radio ==> s.max == 4 && s.misses <= 3)
    && (s.connected <==> LastIsRadio(s.entered))
  }

  lemma ModeSetRight(s: Station, mode: Mode)
    requires Right(s)
    ensures Right(ModeSet(s, mode)) && ModeSet(s, mode).mode == mode
  {
    if s.mode != mode {
      assert (s.entered + [mode])[..|s.entered|] == s.entered;
    }
  }

  lemma VerifyRight(s: Station)
    requires Right(s)
    ensures Right(HeartVerify(s))
    ensures s.mode == Radio ==> HeartVerify(s).mode == if s.misses == HB_MISS then Watch else Radio
    ensures s.mode == Radio && s.misses < HB_MISS ==> HeartVerify(s).misses == s.misses + 1
    ensures s.mode != Radio ==> HeartVerify(s).mode == s.mode
  {
    if s.mode == Radio && s.misses == HB_MISS {
      var (h, beat) := VerifyHeart(HeartOf(s));
      assert beat == Report;
      var s1 := s.(misses := h.misses, beats := s.beats + [beat], cron := DisableSlot(s.cron, CRON_ID_HEARTBEAT));
      assert (s.entered + [Watch])[..|s.entered|] == s.entered;
      assert HeartVerify(s) == ModeSet(s1, Watch);
    }
  }

  lemma StepRight(s: Station, ev: Event)
    requires Right(s) && Legal(ev)
    ensures Right(Do(s, ev))
  {
    match ev
    case Set(mode) => ModeSetRight(s, mode);
    case Confirmed =>
    case Verified => VerifyRight(s);
    case Cron(e) =>
      StepFrame(s.cron, e, CRON_ID_FLUSH);
      StepFrame(s.cron, e, CRON_ID_HEARTBEAT);
  }

  /** Slots and connection flag are right in every run. */
  lemma {:induction false} SlotsAndConnection(s: Station, events: seq<Event>)
    requires Right(s) && forall i :: 0 <= i < |events| ==> Legal(events[i])
    ensures Right(After(s, events))
    decreases |events|
  {
    if events != [] {
      StepRight(s, events[0]);
      SlotsAndConnection(Do(s, events[0]), events[1..]);
    }
  }

  function Verifications(events: seq<Event>): nat
    decreases |events|
  {
    if events == [] then 0 else (if events[0] == Verified then 1 else 0) + Verifications(events[1..])
  }

  /** The stretch from `i` to `j` has a confirmation or few enough verifications. */
  predicate StretchFits(events: seq<Event>, i: nat, j: nat, first: int)
    requires i <= j <= |events|
  {
    Confirmed !in events[i..j] ==> Verifications(events[i..j]) <= if i == 0 then first else HB_MISS
  }

  /** No stretch of the events without a confirmation has more than HB_MISS verifications, or
      more than `first` if it is at the beginning. */
  ghost predicate Answered(events: seq<Event>, first: int) {
    forall i, j :: 0 <= i <= j <= |events| ==> StretchFits(events, i, j, first)
  }

  lemma FirstStretch(events: seq<Event>, j: nat)
    requires 0 < j <= |events|
    ensures events[0..j] == [events[0]] + events[1..][0..j - 1]
    ensures Verifications(events[0..j])
            == (if events[0] == Verified then 1 else 0) + Verifications(events[1..][0..j - 1])
    ensures Confirmed !in events[0..j] <==> events[0] != Confirmed && Confirmed !in events[1..][0..j - 1]
  {
    assert events[0..j][1..] == events[1..][0..j - 1];
    assert events[0..j] == [events[0]] + events[1..][0..j - 1];
  }

  lemma LaterStretch(events: seq<Event>, i: nat, j: nat)
    requires 0 < i <= j <= |events|
    ensures events[i..j] == events[1..][i - 1..j - 1]
  {
    var rest := events[1..];
    assert forall k :: i <= k < j ==> events[k] == rest[k - 1];
  }

  /** What may still be missed after the first event. */
  function Allowed(ev: Event, first: int): int {
    if ev == Confirmed then HB_MISS else if ev == Verified then first - 1 else first
  }

  lemma AnsweredRest(events: seq<Event>, first: int)
    requires events != [] && 0 <= first <= HB_MISS && Answered(events, first)
    ensures 0 <= Allowed(events[0], first) && Answered(events[1..], Allowed(events[0], first))
  {
    FirstStretch(events, 1);
    assert StretchFits(events, 0, 1, first);
    var rest := events[1..];
    forall i, j | 0 <= i <= j <= |rest|
      ensures StretchFits(rest, i, j, Allowed(events[0], first))
    {
      LaterStretch(events, i + 1, j + 1);
      FirstStretch(events, j + 1);
      assert StretchFits(events, i + 1, j + 1, first) && StretchFits(events, 0, j + 1, first);
    }
  }

  lemma AnsweredAll(events: seq<Event>, first: int)
    requires events != [] && 0 <= first <= HB_MISS && 0 <= Allowed(events[0], first)
    requires Answered(events[1..], Allowed(events[0], first))
    ensures Answered(events, first)
  {
    var rest := events[1..];
    forall i, j | 0 <= i <= j <= |events|
      ensures StretchFits(events, i, j, first)
    {
      if j > 0 {
        FirstStretch(events, j);
        assert StretchFits(rest, 0, j - 1, Allowed(events[0], first));
        if i > 0 {
          LaterStretch(events, i, j);
          assert StretchFits(rest, i - 1, j - 1, Allowed(events[0], first));
        }
      }
    }
  }

  /** The radio mode lasts all through a run. */
  ghost predicate StaysRadio(s: Station, events: seq<Event>)
    requires Sound(s)
  {
    forall n: nat :: n <= |events| ==> After(s, events[..n]).mode == Radio
  }

  lemma StaysStep(s: Station, events: seq<Event>)
    requires Sound(s) && events != []
    ensures StaysRadio(s, events) <==> s.mode == Radio && StaysRadio(Do(s, events[0]), events[1..])
  {
    var s1 := Do(s, events[0]);
    assert events[..0] == [];
    forall n: nat | n < |events|
      ensures After(s, events[..n + 1]) == After(s1, events[1..][..n])
    {
      assert events[..n + 1][1..] == events[1..][..n];
    }
    if s.mode == Radio && StaysRadio(s1, events[1..]) {
      forall n: nat | n <= |events|
        ensures After(s, events[..n]).mode == Radio
      {
        if n > 0 {
          assert After(s, events[..n - 1 + 1]) == After(s1, events[1..][..n - 1]);
        }
      }
    }
    if StaysRadio(s, events) {
      assert After(s, events[..0]) == s;
      forall n: nat | n <= |events[1..]|
        ensures After(s1, events[1..][..n]).mode == Radio
      {
        assert After(s, events[..n + 1]) == After(s1, events[1..][..n]);
      }
    }
  }

  /** Unless another mode is set from outside, the radio mode lasts all through a run if and only
      if no stretch of the run without a confirmation has more than HB_MISS verifications,
      counting those missed before the run. */
  lemma {:induction false} RadioLasts(s: Station, events: seq<Event>)
    requires Right(s) && s.mode == Radio
    requires forall i :: 0 <= i < |events| ==> Legal(events[i]) && (events[i].Set? ==> events[i].mode == Radio)
    ensures StaysRadio(s, events) <==> Answered(events, HB_MISS - s.misses)
    decreases |events|
  {
    if events == [] {
      assert forall n: nat :: n <= |events| ==> events[..n] == [];
    } else {
      var first := HB_MISS - s.misses;
      var s1 := Do(s, events[0]);
      StepRight(s, events[0]);
      StaysStep(s, events);
      if events[0] == Verified {
        VerifyRight(s);
      }
      if s1.mode == Radio {
        RadioLasts(s1, events[1..]);
        if Answered(events, first) {
          AnsweredRest(events, first);
        }
        if Answered(events[1..], HB_MISS - s1.misses) {
          AnsweredAll(events, first);
        }
      } else {
        assert After(s1, events[1..][..0]) == s1;
        FirstStretch(events, 1);
        assert !StretchFits(events, 0, 1, first);
      }
    }
  }
}
