/** The whole Pi-AVR link as a state machine: the Pi's mcu-handle thread, the threads that
    push to it, the IRQ line, the SPI interrupt and the AVR main loop, in every interleaving.

    Sources: src/pi/mcu-handle.cpp, mcu-block.cpp, mcu-parse.cpp, src/util/condition-queue.hpp,
    src/avr/spi.c, decode.c, postpone.c, flush.c.
 */
module Link {
  import opened Constants
  import opened Framing
  import opened Decoder
  import opened Slave

  /** Where the Pi thread is.  `Transfer` is the SPI ioctl under way and `Parse` the loop over
      the bytes it returned; `polling` says that the frame was the IDLE of step 1. */
  datatype Pc =
    | Top
    | Poll
    | Decide
    | Asleep(notified: bool)
    | Send
    | Transfer(out: seq<byte>, got: seq<byte>, polling: bool)
    | Parse(got: seq<byte>, polling: bool)
    | Crashed

  datatype Pi = Pi(
    pc: Pc,
    raised: bool,
    edges: seq<bool>,
    toQueue: seq<Msg>,
    pending: byte,
    buf: seq<byte>)

  /** `wire` holds the IRQ edges the kernel has seen but not yet queued; `radio` says that the
      AVR is in radio mode, where alone it displays shift_data. */
  datatype State = State(pi: Pi, avr: Avr, wire: seq<bool>, radio: bool)

  // ----- stop-and-wait lock -----

  function Engage(pending: byte, id: byte): byte {
    if id == SERIAL_ID_TO_IGNORE then pending
    else if pending != SERIAL_ID_TO_IGNORE && pending != id then pending
    else id
  }

  /** None when the ids mismatch. */
  function Relax(pending: byte, id: byte): Option<byte> {
    if id == SERIAL_ID_TO_IGNORE || pending == SERIAL_ID_TO_IGNORE then Some(pending)
    else if pending != id then None
    else Some(SERIAL_ID_TO_IGNORE)
  }

  const IDLE := Msg(SERIAL_ID_TO_IGNORE, MSG_ID_IDLE, [])

  // ----- the Pi thread -----

  predicate MustWait(pi: Pi) {
    pi.edges == [] && (pi.pending != SERIAL_ID_TO_IGNORE || pi.toQueue == [])
  }

  function PollEdge(pi: Pi): Pi {
    var raised := if pi.edges == [] then pi.raised else pi.edges[0];
    pi.(raised := raised,
        edges := if pi.edges == [] then [] else pi.edges[1..],
        pc := if raised then Top else Decide)
  }

  function SendNext(pi: Pi): Pi {
    if pi.pending == SERIAL_ID_TO_IGNORE && pi.toQueue != [] then
      pi.(toQueue := pi.toQueue[1..],
          pending := Engage(pi.pending, pi.toQueue[0].serial),
          pc := Transfer(Wire(pi.toQueue[0]), [], false))
    else pi.(pc := Top)
  }

  function ParseByte(pi: Pi): Pi
    requires pi.pc.Parse? && pi.pc.got != []
  {
    var (buf, msg) := Push(pi.buf, pi.pc.got[0]);
    var next := pi.(buf := buf, pc := Parse(pi.pc.got[1..], pi.pc.polling));
    if msg.None? || |msg.value| < 2 then next
    else
      match Relax(pi.pending, msg.value[0])
      case Some(pending) => next.(pending := pending)
      case None => next.(pc := Crashed)
  }

  predicate PiReady(pi: Pi) {
    match pi.pc
    case Asleep(notified) => notified
    case Transfer(out, _, _) => out == []
    case Crashed => false
    case _ => true
  }

  function PiRun(pi: Pi): Pi
    requires PiReady(pi)
  {
    match pi.pc
    case Top => if pi.raised then pi.(pc := Transfer(Wire(IDLE), [], true)) else pi.(pc := Poll)
    case Poll => PollEdge(pi)
    case Decide => if MustWait(pi) then pi.(pc := Asleep(false)) else pi.(pc := Send)
    case Asleep(_) => pi.(pc := Top)
    case Send => SendNext(pi)
    case Transfer(_, got, polling) => pi.(pc := Parse(got, polling))
    case Parse(got, polling) =>
      if got == [] then pi.(pc := if polling then Poll else Top) else ParseByte(pi)
  }

  /** notify_one, called by a push only when its own queue was empty. */
  function Notify(pi: Pi, wasEmpty: bool): Pi {
    if wasEmpty && pi.pc.Asleep? then pi.(pc := Asleep(true)) else pi
  }

  function QueueEdge(pi: Pi, level: bool): Pi {
    Notify(pi.(edges := pi.edges + [level]), pi.edges == [])
  }

  function QueueMsg(pi: Pi, m: Msg): Pi {
    Notify(pi.(toQueue := pi.toQueue + [m]), pi.toQueue == [])
  }

  // ----- steps -----

  datatype Action =
    | PiMoves
    | SpuriousWakeup
    | Deliver
    | PushTo(m: Msg)
    | ByteExchange
    | AvrReads(answered: bool)
    | AvrReleases
    | AvrSends(id: byte, payload: seq<byte>)
    | AvrRaises
    | Display
    | StartDrain
    | StopDrain
    | SetRadio(on: bool)

  /** What the Pi's other threads push: only a HANDSHAKE goes without a serial id. */
  predicate Sendable(m: Msg) {
    |m.payload| <= (if m.id == MSG_ID_LED_ARRAY then LED_ARRAY_SIZE else LED_ARRAY_SIZE + MSG_OVERHEAD)
    && (m.serial == SERIAL_ID_TO_IGNORE <==> m.id == MSG_ID_HANDSHAKE || m.id == MSG_ID_IDLE)
  }

  /** read_buf is assumed to stay strictly below its capacity. */
  predicate ReadRoom(a: Avr) {
    |a.read| < BUFFER_SIZE - 1
  }

  predicate Enabled(s: State, action: Action) {
    match action
    case PiMoves => PiReady(s.pi)
    case SpuriousWakeup => s.pi.pc.Asleep?
    case Deliver => s.wire != []
    case PushTo(m) => Sendable(m) && m.id != MSG_ID_IDLE
    case ByteExchange => s.pi.pc.Transfer? && s.pi.pc.out != [] && ReadRoom(s.avr)
    case AvrSends(id, payload) => |payload| <= 8
    case Display => s.radio
    case _ => true
  }

  /** An AVR step; a change of the IRQ level is an edge on the wire. */
  function WithAvr(s: State, a: Avr): State {
    s.(avr := a, wire := if a.irq == s.avr.irq then s.wire else s.wire + [a.irq])
  }

  function AvrMoves(a: Avr, action: Action): Avr {
    match action
    case AvrReads(answered) => ReadStep(a, answered)
    case AvrReleases => PostponeTry(a)
    case AvrSends(id, payload) => EncodeMsg(a, Msg(SERIAL_ID_TO_IGNORE, id, payload))
    case AvrRaises => a.(irq := true)
    case Display => ShiftDisplay(a)
    case StartDrain => DrainStart(a)
    case StopDrain => DrainStop(a)
    case _ => a
  }

  function Next(s: State, action: Action): State
    requires Enabled(s, action)
  {
    match action
    case PiMoves => s.(pi := PiRun(s.pi))
    case SpuriousWakeup => s.(pi := s.pi.(pc := Top))
    case Deliver => s.(pi := QueueEdge(s.pi, s.wire[0]), wire := s.wire[1..])
    case PushTo(m) => s.(pi := QueueMsg(s.pi, m))
    case ByteExchange =>
      var pc := s.pi.pc;
      var pi := s.pi.(pc := Transfer(pc.out[1..], pc.got + [s.avr.spdr], pc.polling));
      WithAvr(s.(pi := pi), Exchange(s.avr, pc.out[0]))
    case SetRadio(on) => s.(radio := on)
    case _ => WithAvr(s, AvrMoves(s.avr, action))
  }

  /** After the start-up reset: the VERSION message waits in write_buf with IRQ raised, and
      SPDR holds whatever it held, not an eye-catch.  The rise of IRQ is on its way to the Pi,
      or is over: the program asks for edges only after the AVR has confirmed the reset
      (src/pi/base.cpp:32-33, src/pi/spi-enable.cpp:52-70). */
  predicate Initial(s: State) {
    s.pi == Pi(Top, false, [], [], SERIAL_ID_TO_IGNORE, [])
    && s.avr.spdr != EYE_CATCH
    && s.avr == Avr([], Wire(VERSION), s.avr.spdr, true, Hunting, [], [], false)
    && (s.wire == [true] || s.wire == []) && !s.radio
  }

  const VERSION := Msg(SERIAL_ID_TO_IGNORE, MSG_ID_VERSION, [PROTOCOL_VERSION])

  predicate Legal(s: State, actions: seq<Action>)
    decreases |actions|
  {
    actions == [] || (Enabled(s, actions[0]) && Legal(Next(s, actions[0]), actions[1..]))
  }

  function Run(s: State, actions: seq<Action>): State
    requires Legal(s, actions)
    decreases |actions|
  {
    if actions == [] then s else Run(Next(s, actions[0]), actions[1..])
  }
}
