/** The inductive invariant of the link and what follows from it in every run. */
module LinkInvariant {
  import opened Constants
  import opened Framing
  import opened Decoder
  import opened Slave
  import opened Link
  import opened Sequences

  /** What a run has done so far; it is not part of the system and never influences it. */
  datatype History = History(
    pushed: seq<Msg>,        // messages other threads have pushed
    reqs: seq<Msg>,          // messages on the way to the AVR, first byte not yet fully decoded
    decoded: seq<Msg>,       // messages the AVR has decoded
    written: seq<seq<byte>>, // bodies of the frames the AVR has put into write_buf
    items: seq<Item>,        // frames and filler on the way to the Pi
    received: seq<seq<byte>>,// messages the Pi has parsed
    dropped: seq<Msg>,       // of these, the ones decoded while draining or before draining last began
    accepted: seq<Msg>,      // and the ones decoded since draining last ended
    shown: seq<byte>,        // columns shifted out to the display since draining last began
    refused: nat,            // LED_ARRAY fills that shift_data refused
    missed: bool)            // the first rise of IRQ was missed, and the line has not been low since

  function Wires(msgs: seq<Msg>): seq<byte> {
    if msgs == [] then [] else Wire(msgs[0]) + Wires(msgs[1..])
  }

  /** The non-zero serial ids of messages, in order. */
  function Serials(msgs: seq<Msg>): seq<byte> {
    if msgs == [] then []
    else (if msgs[0].serial == SERIAL_ID_TO_IGNORE then [] else [msgs[0].serial]) + Serials(msgs[1..])
  }

  function BodySerial(body: seq<byte>): seq<byte> {
    if body == [] || body[0] == SERIAL_ID_TO_IGNORE then [] else [body[0]]
  }

  function BodySerials(bodies: seq<seq<byte>>): seq<byte> {
    if bodies == [] then [] else BodySerial(bodies[0]) + BodySerials(bodies[1..])
  }

  function Real(msgs: seq<Msg>): seq<Msg> {
    if msgs == [] then []
    else (if msgs[0].id == MSG_ID_IDLE then [] else [msgs[0]]) + Real(msgs[1..])
  }

  /** The columns the LED_ARRAY messages carry. */
  function Columns(msgs: seq<Msg>): seq<byte> {
    if msgs == [] then []
    else (if msgs[0].id == MSG_ID_LED_ARRAY then msgs[0].payload else []) + Columns(msgs[1..])
  }

  function Outgoing(pc: Pc): seq<byte> {
    if pc.Transfer? then pc.out else []
  }

  function Incoming(pi: Pi): seq<byte> {
    pi.buf + (if pi.pc.Transfer? || pi.pc.Parse? then pi.pc.got else [])
  }

  function SlotBody(slot: seq<byte>): seq<byte> {
    if |slot| < 2 then [] else slot[2..]
  }

  /** The message a ring read completes, if any. */
  function Decodes(a: Avr): Option<Msg> {
    Step(Inbound(a)).1
  }

  /** The frames an AVR action puts into write_buf. */
  function Writes(a: Avr, action: Action): seq<seq<byte>> {
    match action
    case AvrReleases => if a.slot != [] && EnoughSpace(a) then [SlotBody(a.slot)] else []
    case AvrSends(id, payload) =>
      if Writable(a) then [Body(Msg(SERIAL_ID_TO_IGNORE, id, payload))] else []
    case _ => []
  }

  /** What a parsed byte leaves of the items. */
  function ItemsAfter(items: seq<Item>, buf: seq<byte>, info: byte): seq<Item> {
    if items != [] && Push(buf, info).0 == [] then items[1..] else items
  }

  function Frames(bodies: seq<seq<byte>>): seq<Item> {
    if bodies == [] then [] else [Framed(bodies[0])] + Frames(bodies[1..])
  }

  function Begins(pi: Pi): seq<Msg> {
    if pi.pc.Top? && pi.raised then [IDLE]
    else if pi.pc.Send? && pi.pending == SERIAL_ID_TO_IGNORE && pi.toQueue != [] then [pi.toQueue[0]]
    else []
  }

  function Note(s: State, h: History, action: Action): History
    requires Enabled(s, action)
  {
    match action
    case PiMoves =>
      if s.pi.pc.Parse? && s.pi.pc.got != [] then
        var msg := Push(s.pi.buf, s.pi.pc.got[0]).1;
        h.(items := ItemsAfter(h.items, s.pi.buf, s.pi.pc.got[0]),
           received := h.received + if msg.Some? then [msg.value] else [])
      else h.(reqs := h.reqs + Begins(s.pi))
    case PushTo(m) => h.(pushed := h.pushed + [m])
    case ByteExchange =>
      h.(items := h.items + (if s.avr.write == [] then [Noise(SPI_WRITE_UNDERFLOW)] else []),
         missed := h.missed && s.avr.write != [])
    case AvrReads(_) =>
      (match Decodes(s.avr)
       case None => h
       case Some(m) =>
         h.(decoded := h.decoded + [m],
            dropped := if s.avr.drain then h.dropped + [m] else h.dropped,
            accepted := if s.avr.drain then h.accepted else h.accepted + [m],
            reqs := if h.reqs == [] then [] else h.reqs[1..],
            refused := h.refused + if m.id == MSG_ID_LED_ARRAY && !ShiftAccepts(s.avr, m.payload) then 1 else 0))
    case AvrReleases =>
      h.(written := h.written + Writes(s.avr, action), items := h.items + Frames(Writes(s.avr, action)))
    case AvrSends(_, _) =>
      h.(written := h.written + Writes(s.avr, action), items := h.items + Frames(Writes(s.avr, action)))
    case Display =>
      h.(shown := h.shown + if |s.avr.shift| < MIN_DATA_SIZE then [] else [s.avr.shift[0]])
    case StartDrain => h.(dropped := h.dropped + h.accepted, accepted := [], shown := [])
    case _ => h
  }

  function RunNotes(s: State, h: History, actions: seq<Action>): History
    requires Legal(s, actions)
    decreases |actions|
  {
    if actions == [] then h else RunNotes(Next(s, actions[0]), Note(s, h, actions[0]), actions[1..])
  }

  // ----- the invariant -----

  /** Bytes from the Pi's transfer, read_buf and the header being decoded. */
  function Outbound(s: State): seq<byte> {
    Prefix(s.avr.head) + s.avr.read + Outgoing(s.pi.pc)
  }

  /** Bytes in the Pi's parser and transfer, in SPDR and in write_buf. */
  function Returning(s: State): seq<byte> {
    Incoming(s.pi) + [s.avr.spdr] + s.avr.write
  }

  predicate AllSendable(msgs: seq<Msg>) {
    forall i | 0 <= i < |msgs| :: Sendable(msgs[i])
  }

  /** The bytes on the way to the AVR are whole frames of `reqs`. */
  predicate RequestsFlow(outbound: seq<byte>, reqs: seq<Msg>) {
    outbound == Wires(reqs) && AllSendable(reqs)
  }

  predicate Queueable(toQueue: seq<Msg>) {
    forall i | 0 <= i < |toQueue| :: Sendable(toQueue[i]) && toQueue[i].id != MSG_ID_IDLE
  }

  /** The bytes on the way to the Pi are whole frames and filler. */
  predicate RepliesFlow(returning: seq<byte>, buf: seq<byte>, items: seq<Item>) {
    returning == Stream(items) && GoodItems(items) && Partial(buf)
  }

  /** Every frame the AVR wrote is parsed once, in order. */
  predicate RepliesArrive(h: History) {
    h.written == h.received + Bodies(h.items)
  }

  predicate SlotShape(slot: seq<byte>) {
    slot == [] || (|slot| == 6 && slot == Frame(SlotBody(slot)) && slot[2] != SERIAL_ID_TO_IGNORE)
  }

  function Awaited(pending: byte): seq<byte> {
    if pending == SERIAL_ID_TO_IGNORE then [] else [pending]
  }

  /** The stop-and-wait token: the requests on the way, the reply slot and the replies on the
      way together carry the pending serial id exactly once, or nothing when none is pending. */
  predicate Token(requests: seq<byte>, slot: seq<byte>, replies: seq<byte>, pending: byte) {
    requests + BodySerial(SlotBody(slot)) + replies == Awaited(pending)
  }

  /** Each decoded message with a serial id has one reply, in order: written, or in the slot. */
  predicate RepliedOnce(decoded: seq<byte>, written: seq<byte>, slot: seq<byte>) {
    decoded == written + BodySerial(SlotBody(slot))
  }

  /** IRQ low means that nothing but one byte of filler is left to send. */
  predicate LineLow(a: Avr, items: seq<Item>) {
    !a.irq ==> a.write == [] && items != [] && items[|items| - 1] == Noise(a.spdr)
  }

  function Last(first: bool, levels: seq<bool>): bool {
    if levels == [] then first else levels[|levels| - 1]
  }

  /** The raised flag, the queued edges and the edges in the kernel end at the line's level. */
  predicate EdgesEnd(raised: bool, edges: seq<bool>, wire: seq<bool>, irq: bool) {
    Last(Last(raised, edges), wire) == irq
  }

  /** They do unless the first rise was missed; then the Pi knows of nothing. */
  predicate EdgesRight(raised: bool, edges: seq<bool>, wire: seq<bool>, irq: bool, missed: bool) {
    if missed then irq && !raised && edges == [] && wire == [] else EdgesEnd(raised, edges, wire, irq)
  }

  /** While a missed rise has not been made good, the last thing on its way to the Pi is a frame. */
  predicate Unheard(missed: bool, items: seq<Item>) {
    missed ==> items != [] && items[|items| - 1].Framed?
  }

  predicate SleepsRightly(pi: Pi) {
    (pi.pc.Asleep? || pi.pc.Decide? || pi.pc.Send? ==> !pi.raised)
    && (pi.pc == Asleep(false) ==> MustWait(pi))
    && (pi.pc.Send? ==> !MustWait(pi))
    && pi.pc != Crashed
  }

  /** write_buf and shift_data stay well below the ring's capacity. */
  predicate Rooms(a: Avr, refused: nat) {
    |a.read| < BUFFER_SIZE
    && |a.write| <= BUFFER_SIZE - ENOUGH_SPACE + 12
    && |a.shift| <= BUFFER_SIZE - ENOUGH_SPACE + LED_ARRAY_SIZE
    && (a.slot == [] ==> |a.shift| <= BUFFER_SIZE - ENOUGH_SPACE)
    && refused == 0
  }

  /** Pushed messages are decoded once, in order. */
  predicate Delivery(decoded: seq<Msg>, reqs: seq<Msg>, toQueue: seq<Msg>, pushed: seq<Msg>) {
    decoded + reqs + toQueue == pushed
  }

  /** Whatever is not draining reaches the display: the columns shown since draining last began
      and those queued are those of the messages decoded since it last ended. */
  predicate ColumnsShown(a: Avr, h: History) {
    && h.decoded == h.dropped + h.accepted && (a.drain ==> h.accepted == [])
    && h.shown + a.shift == Columns(h.accepted)
  }

  predicate RequestsInv(s: State, h: History) {
    RequestsFlow(Outbound(s), h.reqs) && Queueable(s.pi.toQueue)
  }

  predicate RepliesInv(s: State, h: History) {
    RepliesFlow(Returning(s), s.pi.buf, h.items) && RepliesArrive(h) && LineLow(s.avr, h.items)
  }

  predicate TokenInv(s: State, h: History) {
    SlotShape(s.avr.slot)
    && Token(Serials(h.reqs), s.avr.slot, BodySerials(Bodies(h.items)), s.pi.pending)
    && RepliedOnce(Serials(h.decoded), BodySerials(h.written), s.avr.slot)
  }

  predicate ThreadInv(s: State, missed: bool) {
    EdgesRight(s.pi.raised, s.pi.edges, s.wire, s.avr.irq, missed) && SleepsRightly(s.pi)
  }

  predicate DeliveryInv(s: State, h: History) {
    Delivery(Real(h.decoded), Real(h.reqs), s.pi.toQueue, h.pushed)
  }

  predicate Inv(s: State, h: History) {
    RequestsInv(s, h) && RepliesInv(s, h) && TokenInv(s, h) && ThreadInv(s, h.missed)
    && Unheard(h.missed, h.items)
    && Rooms(s.avr, h.refused) && DeliveryInv(s, h) && ColumnsShown(s.avr, h)
  }

  function StartHistory(s: State): History {
    History([], [], [], [Body(VERSION)], [Noise(s.avr.spdr), Framed(Body(VERSION))], [], [], [], [], 0, s.wire == [])
  }

  // ----- appending and taking off -----

  lemma {:induction false} WiresSnoc(msgs: seq<Msg>, m: Msg)
    ensures Wires(msgs + [m]) == Wires(msgs) + Wire(m)
  {
    SnocFirst(msgs, m);
    NoneLeft(m);
    if msgs != [] {
      WiresSnoc(msgs[1..], m);
      Assoc(Wire(msgs[0]), Wires(msgs[1..]), Wire(m));
    }
  }

  lemma {:induction false} SerialsSnoc(msgs: seq<Msg>, m: Msg)
    ensures Serials(msgs + [m]) == Serials(msgs) + Serials([m])
  {
    SnocFirst(msgs, m);
    if msgs != [] {
      SerialsSnoc(msgs[1..], m);
      Assoc(if msgs[0].serial == SERIAL_ID_TO_IGNORE then [] else [msgs[0].serial], Serials(msgs[1..]), Serials([m]));
    }
  }

  lemma {:induction false} RealSnoc(msgs: seq<Msg>, m: Msg)
    ensures Real(msgs + [m]) == Real(msgs) + Real([m])
  {
    SnocFirst(msgs, m);
    if msgs != [] {
      RealSnoc(msgs[1..], m);
      Assoc(if msgs[0].id == MSG_ID_IDLE then [] else [msgs[0]], Real(msgs[1..]), Real([m]));
    }
  }

  lemma {:induction false} ColumnsSnoc(msgs: seq<Msg>, m: Msg)
    ensures Columns(msgs + [m]) == Columns(msgs) + Columns([m])
  {
    SnocFirst(msgs, m);
    if msgs != [] {
      ColumnsSnoc(msgs[1..], m);
      Assoc(if msgs[0].id == MSG_ID_LED_ARRAY then msgs[0].payload else [], Columns(msgs[1..]), Columns([m]));
    }
  }

  lemma MsgsSnoc(msgs: seq<Msg>, m: Msg)
    ensures Serials(msgs + [m]) == Serials(msgs) + Serials([m])
    ensures Real(msgs + [m]) == Real(msgs) + Real([m])
    ensures Columns(msgs + [m]) == Columns(msgs) + Columns([m])
  {
    SerialsSnoc(msgs, m);
    RealSnoc(msgs, m);
    ColumnsSnoc(msgs, m);
  }

  lemma {:induction false} BodySerialsSnoc(bodies: seq<seq<byte>>, body: seq<byte>)
    ensures BodySerials(bodies + [body]) == BodySerials(bodies) + BodySerial(body)
  {
    SnocFirst(bodies, body);
    NoneLeft(body);
    if bodies != [] {
      BodySerialsSnoc(bodies[1..], body);
      Assoc(BodySerial(bodies[0]), BodySerials(bodies[1..]), BodySerial(body));
    }
  }

  lemma {:induction false} StreamSnoc(items: seq<Item>, item: Item)
    ensures Stream(items + [item]) == Stream(items) + ItemBytes(item)
  {
    SnocFirst(items, item);
    NoneLeft(item);
    if items != [] {
      StreamSnoc(items[1..], item);
      Assoc(ItemBytes(items[0]), Stream(items[1..]), ItemBytes(item));
    }
  }

  lemma {:induction false} BodiesSnoc(items: seq<Item>, item: Item)
    ensures Bodies(items + [item]) == Bodies(items) + if item.Framed? then [item.body] else []
  {
    SnocFirst(items, item);
    NoneLeft(item);
    var last := if item.Framed? then [item.body] else [];
    if items != [] {
      BodiesSnoc(items[1..], item);
      Assoc(if items[0].Framed? then [items[0].body] else [], Bodies(items[1..]), last);
    }
  }

  lemma ItemsSnoc(items: seq<Item>, item: Item)
    ensures Stream(items + [item]) == Stream(items) + ItemBytes(item)
    ensures Bodies(items + [item]) == Bodies(items) + if item.Framed? then [item.body] else []
  {
    StreamSnoc(items, item);
    BodiesSnoc(items, item);
  }

  lemma InitialInv(s: State)
    requires Initial(s)
    ensures Inv(s, StartHistory(s))
  {
    var v := Framed(Body(VERSION));
    var items := [Noise(s.avr.spdr), v];
    assert Stream([v]) == Wire(VERSION) + Stream([]);
    assert Bodies([v]) == [Body(VERSION)] + Bodies([]);
    assert items[1..] == [v];
    assert Stream(items) == [s.avr.spdr] + Wire(VERSION);
  }
}
