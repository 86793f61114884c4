/** What every run of the link guarantees. */
module LinkTheorems {
  import opened Constants
  import opened Framing
  import opened Decoder
  import opened Slave
  import opened Link
  import opened LinkInvariant
  import opened LinkProof
  import opened Sequences

  /** `s` with history `h` is where `actions` lead from a start-up. */
  ghost predicate Reached(s: State, h: History) {
    exists s0: State, actions: seq<Action> ::
      Initial(s0) && Legal(s0, actions)
      && s == Run(s0, actions) && h == RunNotes(s0, StartHistory(s0), actions)
  }

  lemma ReachedInv(s: State, h: History)
    requires Reached(s, h)
    ensures Inv(s, h)
  {
    var s0: State, actions: seq<Action> :|
      Initial(s0) && Legal(s0, actions)
      && s == Run(s0, actions) && h == RunNotes(s0, StartHistory(s0), actions);
    InitialInv(s0);
    RunKeeps(s0, StartHistory(s0), actions);
  }

  // ----- stop and wait -----

  lemma TokenCount(x: seq<byte>, slot: seq<byte>, z: seq<byte>, pending: byte)
    requires Token(x, slot, z, pending)
    ensures multiset(x) + multiset(BodySerial(SlotBody(slot))) + multiset(z)
            == if pending == SERIAL_ID_TO_IGNORE then multiset{} else multiset{pending}
  {
    var y := BodySerial(SlotBody(slot));
    assert multiset(x + y + z) == multiset(x) + multiset(y) + multiset(z);
  }

  /** When the Pi is engaged exactly one copy of the pending serial id is about, as a request,
      in the reply slot or as a reply; otherwise there is none.  The slot is free whenever a
      reply is produced, and no parsed reply ever mismatches. */
  lemma StopAndWait(s: State, h: History)
    requires Reached(s, h)
    ensures Outbound(s) == Wires(h.reqs) && Returning(s) == Stream(h.items)
    ensures multiset(Serials(h.reqs)) + multiset(BodySerial(SlotBody(s.avr.slot)))
              + multiset(BodySerials(Bodies(h.items)))
            == if s.pi.pending == SERIAL_ID_TO_IGNORE then multiset{} else multiset{s.pi.pending}
    ensures Decodes(s.avr).Some? && Decodes(s.avr).value.serial != SERIAL_ID_TO_IGNORE ==> s.avr.slot == []
    ensures s.pi.pc != Crashed
  {
    ReachedInv(s, h);
    ReadFacts(s, h);
    TokenCount(Serials(h.reqs), s.avr.slot, BodySerials(Bodies(h.items)), s.pi.pending);
  }

  lemma AnswerOrder(decoded: seq<byte>, x: seq<byte>, slot: seq<byte>, received: seq<byte>, z: seq<byte>, pending: byte)
    requires Token(x, slot, z, pending) && RepliedOnce(decoded, received + z, slot)
    ensures decoded + x == received + Awaited(pending)
  {
    OneToken(x, slot, z, pending);
  }

  /** Requests with a serial id are answered once each, in the order they were sent; at most
      the last one is still waiting. */
  lemma AnsweredInOrder(s: State, h: History)
    requires Reached(s, h)
    ensures Serials(h.decoded) + Serials(h.reqs) == BodySerials(h.received) + Awaited(s.pi.pending)
  {
    ReachedInv(s, h);
    BodySerialsConcat(h.received, Bodies(h.items));
    AnswerOrder(Serials(h.decoded), Serials(h.reqs), s.avr.slot,
                BodySerials(h.received), BodySerials(Bodies(h.items)), s.pi.pending);
  }

  lemma {:induction false} BodySerialsConcat(a: seq<seq<byte>>, b: seq<seq<byte>>)
    ensures BodySerials(a + b) == BodySerials(a) + BodySerials(b)
  {
    if a == [] {
      assert a + b == b;
    } else {
      assert (a + b)[1..] == a[1..] + b;
      BodySerialsConcat(a[1..], b);
    }
  }

  // ----- no lost reply, no lost wake-up -----

  /** With IRQ low, every frame the AVR ever wrote has been clocked into the Pi: it is parsed,
      or lies whole in what the Pi has received.  The raised flag, the queued edges and those on
      their way end at the line's level if and only if the first rise was not missed, or the line
      has been low since. */
  lemma NoLostReply(s: State, h: History)
    requires Reached(s, h)
    ensures !s.avr.irq ==> s.avr.write == [] && h.written == h.received + Scan(Incoming(s.pi))
    ensures Last(Last(s.pi.raised, s.pi.edges), s.wire) == s.avr.irq <==> !h.missed
  {
    ReachedInv(s, h);
    if !s.avr.irq {
      FillerLast(Incoming(s.pi), s.avr.spdr, h.items);
    }
  }

  lemma FillerLast(bytes: seq<byte>, b: byte, items: seq<Item>)
    requires items != [] && items[|items| - 1] == Noise(b) && GoodItems(items)
    requires bytes + [b] + [] == Stream(items)
    ensures Scan(bytes) == Bodies(items)
  {
    var all := items[..|items| - 1];
    assert items == all + [Noise(b)];
    ItemsSnoc(all, Noise(b));
    assert bytes == (bytes + [b] + [])[..|bytes|];
    assert Stream(all) == (Stream(all) + [b])[..|Stream(all)|];
    ScanAll(all);
  }

  lemma LastIsFrame(items: seq<Item>)
    requires items != [] && items[|items| - 1].Framed?
    ensures Bodies(items) != []
  {
    var all := items[..|items| - 1];
    assert items == all + [items[|items| - 1]];
    ItemsSnoc(all, items[|items| - 1]);
  }

  /** While a missed rise has not been made good, some frame has not been parsed. */
  lemma MissedIsUnheard(h: History)
    requires RepliesArrive(h) && Unheard(h.missed, h.items)
    ensures h.missed ==> h.written != h.received
  {
    if h.missed {
      LastIsFrame(h.items);
    }
  }

  /** A Pi thread asleep and not notified has no edge queued and nothing it could send,
      although a push notifies only a queue that was empty.  That with IRQ high an edge is on its
      way, and that with no edge on its way it has parsed every frame the AVR ever wrote, holds if
      and only if the first rise was not missed, or the line has been low since. */
  lemma NoLostWakeup(s: State, h: History)
    requires Reached(s, h) && s.pi.pc == Asleep(false)
    ensures s.pi.edges == [] && (s.pi.pending != SERIAL_ID_TO_IGNORE || s.pi.toQueue == [])
    ensures (s.avr.irq ==> s.wire != []) <==> !h.missed
    ensures (s.wire == [] ==> h.written == h.received) <==> !h.missed
  {
    ReachedInv(s, h);
    NoLostReply(s, h);
    MissedIsUnheard(h);
    if s.wire == [] && !h.missed {
      assert Incoming(s.pi) == s.pi.buf;
      assert h.received + Scan(s.pi.buf) == h.received;
    }
  }

  /** All filler but perhaps the first byte is that of an empty write_buf. */
  predicate FillerAfterFirst(items: seq<Item>) {
    forall i | 0 < i < |items| :: items[i].Noise? ==> items[i].b == SPI_WRITE_UNDERFLOW
  }

  lemma FillerStep(s: State, h: History, action: Action)
    requires Enabled(s, action) && FillerAfterFirst(h.items)
    ensures FillerAfterFirst(Note(s, h, action).items)
  {
    var bodies := Writes(s.avr, action);
    if bodies != [] {
      OneFrame(bodies[0]);
      assert bodies == [bodies[0]];
    } else {
      assert h.items + Frames(bodies) == h.items;
    }
  }

  lemma {:induction false} FillerRuns(s: State, h: History, actions: seq<Action>)
    requires Legal(s, actions) && FillerAfterFirst(h.items)
    ensures FillerAfterFirst(RunNotes(s, h, actions).items)
    decreases |actions|
  {
    if actions != [] {
      FillerStep(s, h, actions[0]);
      FillerRuns(Next(s, actions[0]), Note(s, h, actions[0]), actions[1..]);
    }
  }

  /** The bytes on their way to the Pi are whole frames of the AVR, in the order written, and
      between them, after the byte SPDR began with, nothing but the filler 240. */
  lemma FramesAndFiller(s: State, h: History)
    requires Reached(s, h)
    ensures Returning(s) == Stream(h.items) && FillerAfterFirst(h.items)
    ensures h.written == h.received + Bodies(h.items)
  {
    ReachedInv(s, h);
    var s0: State, actions: seq<Action> :|
      Initial(s0) && Legal(s0, actions)
      && s == Run(s0, actions) && h == RunNotes(s0, StartHistory(s0), actions);
    FillerRuns(s0, StartHistory(s0), actions);
  }

  // ----- back-pressure -----

  /** Every LED_ARRAY fill outside drain mode succeeds, and neither write_buf nor shift_data
      ever comes near the ring's ambiguous full state. */
  lemma BackPressureIsLossless(s: State, h: History)
    requires Reached(s, h)
    ensures h.refused == 0
    ensures Decodes(s.avr).Some? && Decodes(s.avr).value.id == MSG_ID_LED_ARRAY ==>
              |s.avr.shift| + |Decodes(s.avr).value.payload| < BUFFER_SIZE
    ensures |s.avr.shift| <= 249 && |s.avr.write| <= 241
  {
    ReachedInv(s, h);
    ReadFacts(s, h);
  }

  /** The status a request is answered with, when back-pressure holds. */
  function StatusFor(m: Msg, answered: bool): byte {
    if m.id == MSG_ID_LED_ARRAY || m.id == MSG_ID_SYNC_CLOCK then STATUS_SUCCESS
    else if m.id == MSG_ID_QUERY_NAME || m.id == MSG_ID_QUERY_NUMBER then
      if answered then STATUS_SUCCESS else STATUS_FAIL
    else STATUS_UNKNOWN_MSG
  }

  /** Every request with a serial id is answered at once by one STATUS message that carries the
      request's serial and message id; an LED_ARRAY is always answered with success. */
  lemma StatusSays(s: State, h: History, answered: bool)
    requires Reached(s, h) && Decodes(s.avr).Some?
    ensures var m := Decodes(s.avr).value;
            ReadStep(s.avr, answered).slot
            == if m.serial == SERIAL_ID_TO_IGNORE then s.avr.slot
               else Wire(Msg(m.serial, MSG_ID_STATUS, [StatusFor(m, answered), m.id]))
  {
    ReachedInv(s, h);
    ReadFacts(s, h);
    var (r, msg) := Step(Inbound(s.avr));
    ReplyInSlot(s.avr.(head := r.head, read := r.read), msg.value, answered);
  }

  lemma ReplyInSlot(a: Avr, m: Msg, answered: bool)
    requires Sendable(m) && (m.serial != SERIAL_ID_TO_IGNORE ==> a.slot == [])
    requires m.id == MSG_ID_LED_ARRAY && !a.drain ==> |a.shift| <= BUFFER_SIZE - ENOUGH_SPACE
    ensures Dispatch(a, m, answered).slot
            == if m.serial == SERIAL_ID_TO_IGNORE then a.slot
               else Wire(Msg(m.serial, MSG_ID_STATUS, [StatusFor(m, answered), m.id]))
  {
  }

  /** How much read_buf has left to decode. */
  function ReadWork(a: Avr): nat {
    2 * |a.read| + if a.head.Identified? then 1 else 0
  }

  /** Back-pressure cannot deadlock: while a reply is held back, some buffer that holds it
      back can be drained.  shift_data is long enough to be displayed, which radio mode does; a
      ring read makes progress; or IRQ is high and the Pi is awake or about to be woken, if it has
      not missed the rise. */
  lemma BackPressureDrains(s: State, h: History, answered: bool)
    requires Reached(s, h) && s.avr.slot != [] && PostponeTry(s.avr) == s.avr
    ensures !EnoughSpace(s.avr)
    ensures Space(s.avr.shift) < ENOUGH_SPACE ==>
              (Enabled(s, Display) <==> s.radio) && |ShiftDisplay(s.avr).shift| < |s.avr.shift|
    ensures Space(s.avr.read) < ENOUGH_SPACE ==> ReadWork(ReadStep(s.avr, answered)) < ReadWork(s.avr)
    ensures !Writable(s.avr) ==> s.avr.irq && (s.pi.pc == Asleep(false) && s.wire == [] ==> h.missed)
  {
    ReachedInv(s, h);
    if Space(s.avr.read) < ENOUGH_SPACE {
      HeadFits(s, h);
      ReadProgress(s.avr, answered);
    }
  }

  /** A ring read with a payload's worth of bytes in read_buf makes progress. */
  lemma ReadProgress(a: Avr, answered: bool)
    requires |a.read| >= ENOUGH_SPACE
    requires a.head.Identified? ==> PayloadSize(a.head.size) <= ENOUGH_SPACE
    ensures ReadWork(ReadStep(a, answered)) < ReadWork(a)
  {
    var (r, msg) := Step(Inbound(a));
    if msg.Some? {
      PayloadStep(a, answered);
      DispatchReads(a.(read := r.read), msg.value, answered);
    }
  }

  lemma DispatchReads(a: Avr, m: Msg, answered: bool)
    ensures Dispatch(a, m, answered).read == a.read
  {
  }

  /** The size byte in the decoder is that of a link frame. */
  lemma HeadFits(s: State, h: History)
    requires RequestsInv(s, h)
    ensures s.avr.head.Identified? ==> PayloadSize(s.avr.head.size) <= ENOUGH_SPACE
  {
    if s.avr.head.Identified? {
      assert Outbound(s)[1] == s.avr.head.size;
      assert h.reqs != [];
      FirstRequest(h.reqs);
      assert Wires(h.reqs)[..4][1] == |h.reqs[0].payload| + 2;
    }
  }

  // ----- delivery -----

  lemma DeliveredColumns(decoded: seq<Msg>, reqs: seq<Msg>, toQueue: seq<Msg>, pushed: seq<Msg>)
    requires Delivery(Real(decoded), reqs, toQueue, pushed)
    ensures Real(decoded) <= pushed && Columns(decoded) <= Columns(pushed)
  {
    Assoc(Real(decoded), reqs, toQueue);
    ColumnsConcat(Real(decoded), reqs + toQueue);
    ColumnsReal(decoded);
  }

  /** Messages pushed on the Pi are decoded on the AVR once each, in order.  The columns shown
      since draining last began and those queued are in every state those of the messages
      decoded since it last ended; so they are a contiguous stretch of the columns pushed, behind
      those that were dropped by draining. */
  lemma ColumnOrder(s: State, h: History)
    requires Reached(s, h)
    ensures Real(h.decoded) <= h.pushed && h.decoded == h.dropped + h.accepted
    ensures h.shown + s.avr.shift == Columns(h.accepted)
    ensures s.avr.drain ==> h.accepted == [] && s.avr.shift == []
    ensures Columns(h.dropped) + (h.shown + s.avr.shift) <= Columns(h.pushed)
  {
    ReachedInv(s, h);
    DeliveredColumns(h.decoded, Real(h.reqs), s.pi.toQueue, h.pushed);
    ColumnsConcat(h.dropped, h.accepted);
  }

  lemma ColumnsPrefix(a: seq<Msg>, b: seq<Msg>)
    requires a <= b
    ensures Columns(a) <= Columns(b)
  {
    assert b == a + b[|a|..];
    ColumnsConcat(a, b[|a|..]);
  }

  lemma {:induction false} ColumnsConcat(a: seq<Msg>, b: seq<Msg>)
    ensures Columns(a + b) == Columns(a) + Columns(b)
  {
    if a == [] {
      assert a + b == b;
    } else {
      assert (a + b)[1..] == a[1..] + b;
      ColumnsConcat(a[1..], b);
      Assoc(if a[0].id == MSG_ID_LED_ARRAY then a[0].payload else [], Columns(a[1..]), Columns(b));
    }
  }

  lemma {:induction false} ColumnsReal(msgs: seq<Msg>)
    ensures Columns(Real(msgs)) == Columns(msgs)
  {
    if msgs != [] {
      ColumnsReal(msgs[1..]);
      if msgs[0].id == MSG_ID_IDLE {
        assert Real(msgs) == Real(msgs[1..]) && Columns(msgs) == Columns(msgs[1..]);
      } else {
        assert Real(msgs)[1..] == Real(msgs[1..]);
      }
    }
  }

  /** Frames the AVR writes are parsed on the Pi once each, in order. */
  lemma RepliesInOrder(s: State, h: History)
    requires Reached(s, h)
    ensures h.received <= h.written
  {
    ReachedInv(s, h);
  }

  // ----- the Pi polls -----

  /** The order in which the Pi thread, left alone with the kernel's edges, reaches its next
      transfer. */
  function Place(pi: Pi): nat {
    match pi.pc
    case Transfer(_, _, _) => 8
    case Parse(_, _) => 7
    case Asleep(notified) => if notified then 6 else 0
    case Top => if pi.edges == [] then 5 else 2
    case Poll => if pi.raised && pi.edges == [] then 6 else if pi.edges == [] then 4 else 1
    case Decide => if pi.edges == [] then 3 else 4
    case Send => if pi.edges == [] then 2 else 3
    case Crashed => 0
  }

  function Left(pc: Pc): nat {
    if pc.Parse? then |pc.got| else 0
  }

  predicate Transferring(pi: Pi) {
    pi.pc.Transfer? && pi.pc.out != []
  }

  function Waiting(s: State): Action {
    if s.pi.pc == Asleep(false) then Deliver else PiMoves
  }

  /** `s1` is nearer to a byte exchange than `s`. */
  predicate Nearer(s1: State, s: State) {
    || Transferring(s1.pi)
    || |s1.wire| < |s.wire|
    || (|s1.wire| == |s.wire| && |s1.pi.edges| < |s.pi.edges|)
    || (|s1.wire| == |s.wire| && |s1.pi.edges| == |s.pi.edges| && Place(s1.pi) < Place(s.pi))
    || (|s1.wire| == |s.wire| && |s1.pi.edges| == |s.pi.edges| && Place(s1.pi) == Place(s.pi)
        && Left(s1.pi.pc) < Left(s.pi.pc))
  }

  lemma ParseLeaves(pi: Pi)
    requires pi.pc.Parse? && pi.pc.got != []
    ensures PiRun(pi).edges == pi.edges
  {
  }

  lemma ParseStep(s: State, h: History)
    requires RepliesInv(s, h) && TokenInv(s, h) && s.pi.pc.Parse? && s.pi.pc.got != []
    ensures Nearer(Next(s, PiMoves), s)
  {
    ParseRelaxes(s, h);
    ParseLeaves(s.pi);
    var s1 := Next(s, PiMoves);
    assert s1 == s.(pi := PiRun(s.pi));
  }

  lemma OtherStep(s: State)
    requires ThreadInv(s, false) && s.avr.irq && !Transferring(s.pi)
    requires s.pi.pc.Parse? ==> s.pi.pc.got == []
    ensures Enabled(s, Waiting(s)) && Nearer(Next(s, Waiting(s)), s)
  {
  }

  lemma PollStep(s: State, h: History)
    requires Inv(s, h) && !h.missed && s.avr.irq && !Transferring(s.pi)
    ensures Enabled(s, Waiting(s)) && Next(s, Waiting(s)).avr == s.avr
    ensures Nearer(Next(s, Waiting(s)), s)
  {
    if s.pi.pc.Parse? && s.pi.pc.got != [] {
      ParseStep(s, h);
    } else {
      OtherStep(s);
    }
  }
}
