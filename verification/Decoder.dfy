/** The AVR's incremental frame decoder (src/avr/decode.c), as a function on the bytes that
    wait in read_buf and the header decoded so far. */
module Decoder {
  import opened Constants
  import opened Framing

  /** The static variables decoded, msg_size, msg_serial and msg_id. */
  datatype Header =
    | Hunting
    | Caught
    | Sized(size: byte)
    | Serialed(size: byte, serial: byte)
    | Identified(size: byte, serial: byte, id: byte)

  datatype Reading = Reading(head: Header, read: seq<byte>)

  /** The bytes already taken out of the ring for the current frame. */
  function Prefix(head: Header): seq<byte> {
    match head
    case Hunting => []
    case Caught => [EYE_CATCH]
    case Sized(size) => [EYE_CATCH, size]
    case Serialed(size, serial) => [EYE_CATCH, size, serial]
    case Identified(size, serial, id) => [EYE_CATCH, size, serial, id]
  }

  /** msg_size - 2 as a uint8_t. */
  function PayloadSize(size: byte): byte {
    if size >= 2 then size - 2 else size + 254
  }

  /** The next ring read cannot succeed. */
  predicate Blocked(r: Reading) {
    if r.head.Identified? then PayloadSize(r.head.size) > |r.read| else r.read == []
  }

  /** One ring read: a header byte, or the whole payload. */
  function Step(r: Reading): (Reading, Option<Msg>) {
    if Blocked(r) then (r, None)
    else match r.head
      case Hunting => (Reading(if r.read[0] == EYE_CATCH then Caught else Hunting, r.read[1..]), None)
      case Caught => (Reading(Sized(r.read[0]), r.read[1..]), None)
      case Sized(size) => (Reading(Serialed(size, r.read[0]), r.read[1..]), None)
      case Serialed(size, serial) => (Reading(Identified(size, serial, r.read[0]), r.read[1..]), None)
      case Identified(size, serial, id) =>
        var n := PayloadSize(size);
        (Reading(Hunting, r.read[n..]), Some(Msg(serial, id, r.read[..n])))
  }

  function Rank(head: Header): nat {
    match head
    case Hunting => 0
    case Caught => 4
    case Sized(_) => 3
    case Serialed(_, _) => 2
    case Identified(_, _, _) => 1
  }

  /** Reads on to the end of the frame, or as far as the bytes go. */
  function ReadOn(r: Reading): (Reading, Option<Msg>)
    decreases Rank(r.head)
  {
    if r.head.Hunting? || Blocked(r) then (r, None)
    else
      var (r1, msg) := Step(r);
      if msg.Some? then (r1, msg) else ReadOn(r1)
  }

  /** One call of decode_try. */
  function DecodeTry(r: Reading): (Reading, Option<Msg>) {
    if r.read == [] then (r, None)
    else if r.head.Hunting? then ReadOn(Step(r).0)
    else ReadOn(r)
  }

  // ----- every interleaving of arrivals and reads -----

  datatype Event = Arrive(b: byte) | Read

  function Arrivals(events: seq<Event>): seq<byte> {
    if events == [] then []
    else (if events[0].Arrive? then [events[0].b] else []) + Arrivals(events[1..])
  }

  function RunReads(r: Reading, events: seq<Event>): (Reading, seq<Msg>)
    decreases |events|
  {
    if events == [] then (r, [])
    else if events[0].Arrive? then RunReads(r.(read := r.read + [events[0].b]), events[1..])
    else
      var (r1, msg) := Step(r);
      var (r2, rest) := RunReads(r1, events[1..]);
      (r2, (if msg.Some? then [msg.value] else []) + rest)
  }

  function BodiesOf(msgs: seq<Msg>): seq<seq<byte>> {
    if msgs == [] then [] else [Body(msgs[0])] + BodiesOf(msgs[1..])
  }

  /** Every frame of the stream, read in order, has a size the decoder can hold. */
  predicate Sane(bytes: seq<byte>)
    decreases |bytes|
  {
    bytes == [] ||
    (if bytes[0] != EYE_CATCH then Sane(bytes[1..])
     else |bytes| >= 2 ==>
       2 <= bytes[1] <= LED_ARRAY_SIZE + MSG_OVERHEAD + 2
       && (Whole(bytes) ==> Sane(bytes[FrameLength(bytes)..])))
  }

  /** Bytes of the current frame, bytes in the ring, bytes still to arrive. */
  function Pending(r: Reading, future: seq<byte>): seq<byte> {
    Prefix(r.head) + r.read + future
  }

  /** Taking the payload takes the whole frame off what is pending. */
  lemma PayloadScans(r: Reading, future: seq<byte>)
    requires r.head.Identified? && !Blocked(r) && Sane(Pending(r, future))
    ensures var (r1, msg) := Step(r);
            && Sane(Pending(r1, future)) && msg.Some?
            && Scan(Pending(r, future)) == [Body(msg.value)] + Scan(Pending(r1, future))
            && Unfinished(Pending(r, future)) == Unfinished(Pending(r1, future))
            && |msg.value.payload| <= LED_ARRAY_SIZE + MSG_OVERHEAD
  {
    var (r1, msg) := Step(r);
    var all := Pending(r, future);
    var n := PayloadSize(r.head.size);
    assert all[0] == EYE_CATCH && all[1] == r.head.size && all[2] == r.head.serial && all[3] == r.head.id;
    assert FrameLength(all) == n + 4;
    assert all[2..n + 4] == Body(msg.value);
    assert all[n + 4..] == Pending(r1, future);
  }

  lemma StepScans(r: Reading, future: seq<byte>)
    requires Sane(Pending(r, future))
    ensures var (r1, msg) := Step(r);
            && Sane(Pending(r1, future))
            && Scan(Pending(r, future))
               == (if msg.Some? then [Body(msg.value)] else []) + Scan(Pending(r1, future))
            && Unfinished(Pending(r, future)) == Unfinished(Pending(r1, future))
            && (msg.Some? ==> |msg.value.payload| <= LED_ARRAY_SIZE + MSG_OVERHEAD)
  {
    var (r1, msg) := Step(r);
    var all, left := Pending(r, future), Pending(r1, future);
    if !Blocked(r) {
      if r.head.Identified? {
        PayloadScans(r, future);
      } else if r.head.Hunting? && r.read[0] != EYE_CATCH {
        assert all[0] == r.read[0] && left == all[1..];
      } else {
        assert left == all;
      }
    }
  }

  lemma BlockedScans(r: Reading)
    requires Blocked(r) && Sane(Pending(r, []))
    ensures Scan(Pending(r, [])) == []
    ensures Unfinished(Pending(r, [])) == Pending(r, [])
  {
    var all := Pending(r, []);
    if all != [] {
      assert all[0] == EYE_CATCH;
      if |all| >= 2 {
        assert all[1] == r.head.size;
      }
    }
  }

  lemma ArriveScans(r: Reading, b: byte, later: seq<byte>)
    ensures Pending(r, [b] + later) == Pending(r.(read := r.read + [b]), later)
  {
  }

  lemma {:induction false} RunScans(r: Reading, events: seq<Event>, future: seq<byte>)
    requires Sane(Pending(r, Arrivals(events) + future))
    ensures Sane(Pending(RunReads(r, events).0, future))
    ensures Scan(Pending(r, Arrivals(events) + future))
            == BodiesOf(RunReads(r, events).1) + Scan(Pending(RunReads(r, events).0, future))
    ensures Unfinished(Pending(r, Arrivals(events) + future)) == Unfinished(Pending(RunReads(r, events).0, future))
    decreases |events|
  {
    if events == [] {
      assert Arrivals(events) + future == future;
    } else {
      var later := Arrivals(events[1..]) + future;
      if events[0].Arrive? {
        assert Arrivals(events) + future == [events[0].b] + later;
        ArriveScans(r, events[0].b, later);
        RunScans(r.(read := r.read + [events[0].b]), events[1..], future);
      } else {
        assert Arrivals(events) + future == later;
        StepScans(r, later);
        RunScans(Step(r).0, events[1..], future);
        JoinBodies(r, events, Scan(Pending(RunReads(r, events).0, future)));
      }
    }
  }

  lemma JoinBodies(r: Reading, events: seq<Event>, rest: seq<seq<byte>>)
    requires events != [] && events[0].Read?
    ensures var (r1, msg) := Step(r);
            BodiesOf(RunReads(r, events).1) + rest
            == (if msg.Some? then [Body(msg.value)] else []) + (BodiesOf(RunReads(r1, events[1..]).1) + rest)
  {
    var (r1, msg) := Step(r);
    if msg.Some? {
      assert RunReads(r, events).1[1..] == RunReads(r1, events[1..]).1;
    } else {
      assert RunReads(r, events).1 == RunReads(r1, events[1..]).1;
    }
  }

  /** Decoder independence and agreement: whatever the interleaving of arriving bytes and ring
      reads, what has been decoded is a prefix of the messages the Pi's byte-wise parser
      reads from the same bytes; and once no read can succeed it is all of them, with the
      same unfinished frame left over. */
  lemma DecoderAgrees(events: seq<Event>)
    requires Sane(Arrivals(events))
    ensures var (r, msgs) := RunReads(Reading(Hunting, []), events);
            var (buf, bodies) := Feed([], Arrivals(events));
            && BodiesOf(msgs) <= bodies
            && (Blocked(r) ==> BodiesOf(msgs) == bodies && Pending(r, []) == buf)
  {
    var r0 := Reading(Hunting, []);
    var bytes := Arrivals(events);
    assert bytes + [] == bytes && Pending(r0, bytes) == bytes && [] + bytes == bytes;
    RunScans(r0, events, []);
    ParserScans([], bytes);
    var (r, msgs) := RunReads(r0, events);
    if Blocked(r) {
      BlockedScans(r);
    }
  }

  // ----- calls of decode_try are such reads, and they make progress -----

  lemma {:induction false} ReadOnIsRun(r: Reading) returns (events: seq<Event>)
    ensures |events| <= Rank(r.head) && Arrivals(events) == []
    ensures RunReads(r, events).0 == ReadOn(r).0
    ensures RunReads(r, events).1 == if ReadOn(r).1.Some? then [ReadOn(r).1.value] else []
    decreases Rank(r.head)
  {
    if r.head.Hunting? || Blocked(r) {
      events := [];
    } else {
      var (r1, msg) := Step(r);
      if msg.Some? {
        events := [Read];
        assert RunReads(r1, events[1..]) == (r1, []);
      } else {
        var rest := ReadOnIsRun(r1);
        events := [Read] + rest;
        assert events[1..] == rest;
      }
    }
  }

  /** One call of decode_try is at most five ring reads with nothing else between. */
  lemma CallIsRun(r: Reading) returns (events: seq<Event>)
    ensures |events| <= 5 && Arrivals(events) == []
    ensures RunReads(r, events).0 == DecodeTry(r).0
    ensures RunReads(r, events).1 == if DecodeTry(r).1.Some? then [DecodeTry(r).1.value] else []
  {
    if r.read == [] {
      events := [];
    } else if r.head.Hunting? {
      var rest := ReadOnIsRun(Step(r).0);
      events := [Read] + rest;
      assert events[1..] == rest;
    } else {
      events := ReadOnIsRun(r);
    }
  }

  /** Between calls the decoder never rests on a complete header with an empty payload. */
  predicate AtRest(r: Reading) {
    r.head.Identified? ==> PayloadSize(r.head.size) > 0
  }

  lemma {:induction false} ReadOnShrinks(r: Reading)
    ensures |ReadOn(r).0.read| <= |r.read|
    ensures !r.head.Hunting? && !Blocked(r) && AtRest(r) ==> |ReadOn(r).0.read| < |r.read|
    ensures AtRest(ReadOn(r).0)
    ensures ReadOn(r).0.head == Hunting || (ReadOn(r).1 == None && Blocked(ReadOn(r).0))
    decreases Rank(r.head)
  {
    if !r.head.Hunting? && !Blocked(r) && Step(r).1.None? {
      ReadOnShrinks(Step(r).0);
    }
  }

  /** A call that can read at all takes at least one byte out of the ring, and ends between frames,
      with the message that it has completed if any, or where the bytes run out. */
  lemma CallShrinks(r: Reading)
    requires AtRest(r)
    ensures AtRest(DecodeTry(r).0)
    ensures Blocked(r) ==> DecodeTry(r) == (r, None)
    ensures !Blocked(r) ==> |DecodeTry(r).0.read| < |r.read|
    ensures DecodeTry(r).0.head == Hunting || (DecodeTry(r).1 == None && Blocked(DecodeTry(r).0))
  {
    if r.read != [] {
      if r.head.Hunting? {
        ReadOnShrinks(Step(r).0);
      } else {
        ReadOnShrinks(r);
      }
    }
  }

  function Calls(r: Reading, n: nat): (Reading, seq<Msg>)
    decreases n
  {
    if n == 0 then (r, [])
    else
      var (r1, msg) := DecodeTry(r);
      var (r2, rest) := Calls(r1, n - 1);
      (r2, (if msg.Some? then [msg.value] else []) + rest)
  }

  lemma {:induction false} BlockedStays(r: Reading, n: nat)
    requires AtRest(r) && Blocked(r)
    ensures Calls(r, n) == (r, [])
    decreases n
  {
    CallShrinks(r);
    if n > 0 {
      BlockedStays(r, n - 1);
      var none: seq<Msg> := [];
      assert Calls(r, n).1 == none + none;
    }
  }

  /** As many calls as there are bytes decode everything that can be decoded. */
  lemma {:induction false} CallsFinish(r: Reading, n: nat)
    requires AtRest(r) && n >= |r.read|
    ensures Blocked(Calls(r, n).0)
    decreases n
  {
    CallShrinks(r);
    if Blocked(r) {
      BlockedStays(r, n);
    } else if n > 0 {
      CallsFinish(DecodeTry(r).0, n - 1);
    }
  }
}
