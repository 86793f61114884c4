/** The AVR's end of the link as a value: what src/avr/spi.c, postpone.c, encode.c, flush.c
    and the dispatch in decode.c do to the buffers, SPDR, the IRQ line and the reply slot. */
module Slave {
  import opened Constants
  import opened Framing
  import opened Decoder

  const BUFFER_SIZE := 255
  const ENOUGH_SPACE := LED_ARRAY_SIZE + MSG_OVERHEAD
  const MIN_DATA_SIZE := 64

  datatype Avr = Avr(
    read: seq<byte>,
    write: seq<byte>,
    spdr: byte,
    irq: bool,
    head: Header,
    slot: seq<byte>,
    shift: seq<byte>,
    drain: bool)

  function Space(q: seq<byte>): int {
    BUFFER_SIZE - |q|
  }

  /** The SPI interrupt after the master has clocked `b` in (and the old SPDR out). */
  function Exchange(a: Avr, b: byte): Avr {
    if Space(a.read) == 0 then a.(spdr := SPI_READ_OVERFLOW)
    else if a.write != [] then a.(read := a.read + [b], spdr := a.write[0], write := a.write[1..])
    else a.(read := a.read + [b], spdr := SPI_WRITE_UNDERFLOW, irq := false)
  }

  function WriteArray(a: Avr, bytes: seq<byte>): Avr {
    a.(write := if |bytes| <= Space(a.write) then a.write + bytes else a.write, irq := true)
  }

  predicate Writable(a: Avr) {
    Space(a.write) >= ENOUGH_SPACE
  }

  predicate EnoughSpace(a: Avr) {
    Writable(a) && Space(a.read) >= ENOUGH_SPACE && Space(a.shift) >= ENOUGH_SPACE
  }

  function PostponeTry(a: Avr): Avr {
    if a.slot == [] || !EnoughSpace(a) then a else WriteArray(a, a.slot).(slot := [])
  }

  function PostponeMessage(a: Avr, msg: seq<byte>, serial: byte): Avr {
    if serial == SERIAL_ID_TO_IGNORE then if Writable(a) then WriteArray(a, msg) else a
    else if a.slot != [] then a
    else a.(slot := msg)
  }

  function EncodeMsg(a: Avr, m: Msg): Avr {
    PostponeMessage(a, Wire(m), m.serial)
  }

  predicate ShiftAccepts(a: Avr, columns: seq<byte>) {
    a.drain || |columns| <= Space(a.shift)
  }

  function ShiftData(a: Avr, columns: seq<byte>): Avr {
    if a.drain || |columns| > Space(a.shift) then a else a.(shift := a.shift + columns)
  }

  function ShiftDisplay(a: Avr): Avr {
    if |a.shift| < MIN_DATA_SIZE then a else a.(shift := a.shift[1..])
  }

  function DrainStart(a: Avr): Avr {
    a.(drain := true, shift := [])
  }

  function DrainStop(a: Avr): Avr {
    a.(drain := false)
  }

  function StatusOf(ok: bool): byte {
    if ok then STATUS_SUCCESS else STATUS_FAIL
  }

  /** decode(): `answered` is what the menu returned for a query reply. */
  function Dispatch(a: Avr, m: Msg, answered: bool): Avr {
    if m.id == MSG_ID_LED_ARRAY then
      EncodeMsg(ShiftData(a, m.payload),
                Msg(m.serial, MSG_ID_STATUS, [StatusOf(ShiftAccepts(a, m.payload)), m.id]))
    else if m.id == MSG_ID_QUERY_NAME || m.id == MSG_ID_QUERY_NUMBER then
      EncodeMsg(a, Msg(m.serial, MSG_ID_STATUS, [StatusOf(answered), m.id]))
    else if m.id == MSG_ID_IDLE || m.id == MSG_ID_HANDSHAKE then a
    else if m.id == MSG_ID_SYNC_CLOCK then
      EncodeMsg(a, Msg(m.serial, MSG_ID_STATUS, [STATUS_SUCCESS, m.id]))
    else
      EncodeMsg(a, Msg(m.serial, MSG_ID_STATUS, [STATUS_UNKNOWN_MSG, m.id]))
  }

  function Inbound(a: Avr): Reading {
    Reading(a.head, a.read)
  }

  /** One ring read of decode_try; a complete message is dispatched at once. */
  function ReadStep(a: Avr, answered: bool): Avr {
    var (r, msg) := Step(Inbound(a));
    var a1 := a.(head := r.head, read := r.read);
    if msg.Some? then Dispatch(a1, msg.value, answered) else a1
  }

  lemma PostponeHead(a: Avr, msg: seq<byte>, serial: byte, head: Header)
    ensures PostponeMessage(a.(head := head), msg, serial) == PostponeMessage(a, msg, serial).(head := head)
  {
  }

  /** Acting on a message neither reads nor changes the header. */
  lemma DispatchHead(a: Avr, m: Msg, answered: bool, head: Header)
    ensures Dispatch(a.(head := head), m, answered) == Dispatch(a, m, answered).(head := head)
  {
    forall b: Avr, reply: Msg
      ensures EncodeMsg(b.(head := head), reply) == EncodeMsg(b, reply).(head := head)
    {
      PostponeHead(b, Wire(reply), reply.serial, head);
    }
    assert ShiftData(a.(head := head), m.payload) == ShiftData(a, m.payload).(head := head);
  }

  /** Reading the payload: it waits, or the message is dispatched and the header forgotten. */
  lemma PayloadStep(a: Avr, answered: bool)
    requires a.head.Identified?
    ensures var n := PayloadSize(a.head.size);
            ReadStep(a, answered)
            == if n > |a.read| then a
               else Dispatch(a.(read := a.read[n..]), Msg(a.head.serial, a.head.id, a.read[..n]), answered)
                    .(head := Hunting)
  {
    var n := PayloadSize(a.head.size);
    if n <= |a.read| {
      DispatchHead(a.(read := a.read[n..]), Msg(a.head.serial, a.head.id, a.read[..n]), answered, Hunting);
    }
  }

  /** One uninterrupted call of decode_try. */
  function TryCall(a: Avr, answered: bool): Avr {
    if a.read == [] then a
    else OnCall(if a.head.Hunting? then ReadStep(a, answered) else a, answered)
  }

  /** The call decodes what the decoder alone would, and dispatches it. */
  lemma TryDecodes(a: Avr, answered: bool)
    ensures var (r, msg) := DecodeTry(Inbound(a));
            var a1 := a.(head := r.head, read := r.read);
            TryCall(a, answered) == if msg.Some? then Dispatch(a1, msg.value, answered) else a1
  {
  }

  /** shift_data stays below its capacity when the message the call completes is an LED_ARRAY. */
  predicate CallFits(a: Avr) {
    var msg := ReadOn(Inbound(a)).1;
    msg.Some? && msg.value.id == MSG_ID_LED_ARRAY && !a.drain ==>
      |a.shift| + |msg.value.payload| < BUFFER_SIZE
  }

  /** Before the payload a ring read takes one byte into the header. */
  lemma HeaderStep(a: Avr, answered: bool)
    requires !a.head.Hunting? && !a.head.Identified? && a.read != []
    ensures ReadStep(a, answered)
            == a.(read := a.read[1..],
                  head := match a.head
                          case Caught => Sized(a.read[0])
                          case Sized(size) => Serialed(size, a.read[0])
                          case Serialed(size, serial) => Identified(size, serial, a.read[0]))
    ensures Inbound(ReadStep(a, answered)) == Step(Inbound(a)).0
  {
  }

  /** The first ring read of a call that is hunting. */
  lemma CatchStep(a: Avr, answered: bool)
    requires a.head.Hunting? && a.read != []
    ensures var found := a.read[0] == EYE_CATCH;
            var a1 := a.(read := a.read[1..], head := if found then Caught else Hunting);
            && ReadStep(a, answered) == a1 && Inbound(a1) == Step(Inbound(a)).0
            && TryCall(a, answered) == OnCall(a1, answered)
            && (!found ==> OnCall(a1, answered) == a1)
  {
  }

  lemma OnCallStep(a: Avr, answered: bool)
    requires !a.head.Hunting?
    ensures Blocked(Inbound(a)) ==> OnCall(a, answered) == a
    ensures !Blocked(Inbound(a)) && !a.head.Identified? ==>
              OnCall(a, answered) == OnCall(ReadStep(a, answered), answered)
    ensures a.head.Identified? ==> OnCall(a, answered) == ReadStep(a, answered)
  {
  }

  /** The rest of a call once the eye-catch is found. */
  function OnCall(a: Avr, answered: bool): Avr {
    var (r, msg) := ReadOn(Inbound(a));
    var a1 := a.(head := r.head, read := r.read);
    if msg.Some? then Dispatch(a1, msg.value, answered) else a1
  }

  function Reads(a: Avr, n: nat, answered: bool): Avr
    decreases n
  {
    if n == 0 then a else Reads(ReadStep(a, answered), n - 1, answered)
  }

  lemma {:induction false} ReadOnIsReads(a: Avr, answered: bool) returns (n: nat)
    ensures n <= Rank(a.head)
    ensures Reads(a, n, answered) == OnCall(a, answered)
    decreases Rank(a.head)
  {
    var (r, msg) := Step(Inbound(a));
    if a.head.Hunting? || Blocked(Inbound(a)) {
      n := 0;
    } else if msg.Some? {
      n := 1;
    } else {
      n := ReadOnIsReads(ReadStep(a, answered), answered);
      n := n + 1;
    }
  }

  /** A call of decode_try is at most five of the link's ring reads in a row. */
  lemma TryIsReads(a: Avr, answered: bool) returns (n: nat)
    ensures n <= 5 && Reads(a, n, answered) == TryCall(a, answered)
  {
    if a.read == [] {
      n := 0;
    } else if a.head.Hunting? {
      n := ReadOnIsReads(ReadStep(a, answered), answered);
      n := n + 1;
    } else {
      n := ReadOnIsReads(a, answered);
    }
  }
}
