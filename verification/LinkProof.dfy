/** Every step of the link keeps its invariant. */
module LinkProof {
  import opened Constants
  import opened Framing
  import opened Decoder
  import opened Slave
  import opened Link
  import opened LinkInvariant
  import opened Sequences

  // ----- requests -----

  lemma FirstRequest(reqs: seq<Msg>)
    requires reqs != [] && Sendable(reqs[0])
    ensures var m := reqs[0];
            var n := |m.payload|;
            var all := Wires(reqs);
            && |all| >= n + 4
            && all[..4] == [EYE_CATCH, n + 2, m.serial, m.id]
            && all[4..] == m.payload + Wires(reqs[1..])
            && all[4..n + 4] == m.payload && all[n + 4..] == Wires(reqs[1..])
  {
    var m := reqs[0];
    WireHead(m);
    HeadAndRest([EYE_CATCH, |m.payload| + 2, m.serial, m.id], m.payload, Wires(reqs[1..]));
  }

  lemma WireHead(m: Msg)
    requires |m.payload| <= 253
    ensures Wire(m) == [EYE_CATCH, |m.payload| + 2, m.serial, m.id] + m.payload
  {
    assert |Body(m)| == |m.payload| + 2;
  }

  lemma HeadAndRest(head: seq<byte>, payload: seq<byte>, rest: seq<byte>)
    ensures var all := head + payload + rest;
            && all[..|head|] == head && all[|head|..] == payload + rest
            && all[|head|..|head| + |payload|] == payload && all[|head| + |payload|..] == rest
  {
  }

  lemma CutPayload(read: seq<byte>, out: seq<byte>, payload: seq<byte>, rest: seq<byte>)
    requires read + out == payload + rest && |payload| <= |read|
    ensures read[..|payload|] == payload && read[|payload|..] + out == rest
  {
    assert read[..|payload|] == (read + out)[..|payload|] == payload;
    assert read[|payload|..] + out == (read + out)[|payload|..] == rest;
  }

  lemma TakePayload(r: Reading, out: seq<byte>, reqs: seq<Msg>)
    requires Prefix(r.head) + r.read + out == Wires(reqs) && r.head.Identified? && !Blocked(r)
    requires reqs != [] && Sendable(reqs[0])
    ensures |reqs[0].payload| <= |r.read|
    ensures Step(r) == (Reading(Hunting, r.read[|reqs[0].payload|..]), Some(reqs[0]))
    ensures r.read[|reqs[0].payload|..] + out == Wires(reqs[1..])
  {
    FirstRequest(reqs);
    HeadAndRest(Prefix(r.head), r.read, out);
    assert Prefix(r.head)[1] == |reqs[0].payload| + 2;
    CutPayload(r.read, out, reqs[0].payload, Wires(reqs[1..]));
  }

  lemma TakeHeader(r: Reading, out: seq<byte>, reqs: seq<Msg>)
    requires Prefix(r.head) + r.read + out == Wires(reqs) && !r.head.Identified? && !Blocked(r)
    requires reqs != [] && Sendable(reqs[0])
    ensures Step(r).1 == None && Step(r).0.read == r.read[1..]
    ensures Prefix(Step(r).0.head) == Prefix(r.head) + [r.read[0]]
  {
    FirstRequest(reqs);
    if r.head.Hunting? {
      assert Wires(reqs)[..4][0] == r.read[0];
    }
  }

  /** A ring read advances inside the first request, or completes exactly that request. */
  lemma TakeRequest(r: Reading, out: seq<byte>, reqs: seq<Msg>)
    requires Prefix(r.head) + r.read + out == Wires(reqs)
    requires forall i | 0 <= i < |reqs| :: Sendable(reqs[i])
    ensures var (r1, msg) := Step(r);
            && (msg.Some? ==> reqs != [] && msg.value == reqs[0])
            && Prefix(r1.head) + r1.read + out == Wires(if msg.Some? then reqs[1..] else reqs)
  {
    if !Blocked(r) {
      assert reqs != [];
      if r.head.Identified? {
        TakePayload(r, out, reqs);
        assert Prefix(Hunting) + r.read[|reqs[0].payload|..] == r.read[|reqs[0].payload|..];
      } else {
        TakeHeader(r, out, reqs);
        assert r.read == [r.read[0]] + r.read[1..];
        assert Prefix(r.head) + [r.read[0]] + r.read[1..] == Prefix(r.head) + r.read;
      }
    }
  }

  // ----- replies -----

  /** The first byte after a partial frame is filler between frames, or belongs to the first
      item, which is a frame; when that byte completes it, it is that frame exactly. */
  lemma TakeReply(buf: seq<byte>, b: byte, rest: seq<byte>, items: seq<Item>)
    requires buf + [b] + rest == Stream(items) && GoodItems(items) && Partial(buf)
    ensures items != []
    ensures var (kept, msg) := Push(buf, b);
            && Partial(kept)
            && kept + rest == Stream(ItemsAfter(items, buf, b))
            && GoodItems(ItemsAfter(items, buf, b))
            && Bodies(items) == (if msg.Some? then [msg.value] else []) + Bodies(ItemsAfter(items, buf, b))
            && (msg.Some? ==> |msg.value| >= 2)
  {
    var all := Stream(items);
    assert all[|buf|] == b;
    assert items != [];
    var later := Stream(items[1..]);
    assert all == ItemBytes(items[0]) + later;
    PushPartial(buf, b);
    if items[0].Noise? {
      assert all[0] == items[0].b;
      assert buf == [];
      assert rest == all[1..] == later;
    } else {
      assert all[0] == EYE_CATCH;
      WholeFrame(items[0].body, later);
      var n := |items[0].body| + 2;
      assert (buf + [b])[0] == EYE_CATCH;
      if Whole(buf + [b]) {
        assert (buf + [b])[1] == all[1];
        assert |buf| + 1 == n && (buf + [b])[2..] == all[2..n] == items[0].body;
        assert rest == all[n..] == later;
      } else {
        assert |buf + [b]| < n;
      }
    }
  }

  // ----- the token -----

  /** At most one serial id is about, and it is the pending one. */
  lemma OneToken(x: seq<byte>, slot: seq<byte>, z: seq<byte>, pending: byte)
    requires Token(x, slot, z, pending)
    ensures var y := BodySerial(SlotBody(slot));
            && (x != [] ==> x == [pending] && y == [] && z == [])
            && (y != [] ==> x == [] && y == [pending] && z == [])
            && (z != [] ==> x == [] && y == [] && z == [pending])
            && (x != [] || y != [] || z != [] ==> pending != SERIAL_ID_TO_IGNORE)
  {
    var y := BodySerial(SlotBody(slot));
    assert |x + y + z| == |x| + |y| + |z| <= 1;
    if x != [] {
      assert (x + y + z)[0] == x[0];
    }
  }

  /** Parsing a body with a serial id releases the pending one; parsing another, or none,
      leaves the token where it was. */
  lemma FirstBody(body: seq<byte>, left: seq<seq<byte>>)
    ensures BodySerials([body] + left) == BodySerial(body) + BodySerials(left)
    ensures body != [] && body[0] == SERIAL_ID_TO_IGNORE ==> BodySerials([body] + left) == BodySerials(left)
  {
    assert ([body] + left)[1..] == left;
  }

  lemma ReleaseToken(x: seq<byte>, slot: seq<byte>, msg: Option<seq<byte>>, left: seq<seq<byte>>, pending: byte)
    requires msg.Some? ==> |msg.value| >= 2
    requires Token(x, slot, BodySerials((if msg.Some? then [msg.value] else []) + left), pending)
    ensures var freed := if msg.Some? then Relax(pending, msg.value[0]) else Some(pending);
            freed.Some? && Token(x, slot, BodySerials(left), freed.value)
  {
    if msg.Some? {
      FirstBody(msg.value, left);
      if msg.value[0] != SERIAL_ID_TO_IGNORE {
        OneToken(x, slot, [msg.value[0]] + BodySerials(left), pending);
        assert |[msg.value[0]] + BodySerials(left)| == 1 + |BodySerials(left)|;
        assert ([msg.value[0]] + BodySerials(left))[0] == msg.value[0];
      }
    } else {
      assert [] + left == left;
    }
  }

  // ----- facts about the two steps that consume bytes -----

  lemma Regroup(buf: seq<byte>, got: seq<byte>, spdr: byte, write: seq<byte>)
    requires got != []
    ensures buf + got + [spdr] + write == buf + [got[0]] + (got[1..] + [spdr] + write)
    ensures buf + got[1..] + [spdr] + write == buf + (got[1..] + [spdr] + write)
  {
  }

  /** A byte parsed from a good stream of replies, with the stream it leaves. */
  lemma ParseFacts(s: State, h: History)
    requires RepliesInv(s, h) && s.pi.pc.Parse? && s.pi.pc.got != []
    ensures var (kept, msg) := Push(s.pi.buf, s.pi.pc.got[0]);
            var left := ItemsAfter(h.items, s.pi.buf, s.pi.pc.got[0]);
            && RepliesFlow(kept + s.pi.pc.got[1..] + [s.avr.spdr] + s.avr.write, kept, left)
            && LineLow(s.avr, left)
            && Bodies(h.items) == (if msg.Some? then [msg.value] else []) + Bodies(left)
            && (msg.Some? ==> |msg.value| >= 2)
  {
    var b, rest := s.pi.pc.got[0], s.pi.pc.got[1..] + [s.avr.spdr] + s.avr.write;
    Regroup(s.pi.buf, s.pi.pc.got, s.avr.spdr, s.avr.write);
    TakeReply(s.pi.buf, b, rest, h.items);
    var kept := Push(s.pi.buf, b).0;
    Regroup(kept, s.pi.pc.got, s.avr.spdr, s.avr.write);
    assert |kept + rest| > 0;
  }

  /** The parsed serial id matches the pending one, so relax succeeds. */
  lemma ParseRelaxes(s: State, h: History)
    requires RepliesInv(s, h) && TokenInv(s, h) && s.pi.pc.Parse? && s.pi.pc.got != []
    ensures PiRun(s.pi).pc == Parse(s.pi.pc.got[1..], s.pi.pc.polling)
    ensures var left := ItemsAfter(h.items, s.pi.buf, s.pi.pc.got[0]);
            Token(Serials(h.reqs), s.avr.slot, BodySerials(Bodies(left)), PiRun(s.pi).pending)
  {
    ParseFacts(s, h);
    var msg := Push(s.pi.buf, s.pi.pc.got[0]).1;
    var left := ItemsAfter(h.items, s.pi.buf, s.pi.pc.got[0]);
    ReleaseToken(Serials(h.reqs), s.avr.slot, msg, Bodies(left), s.pi.pending);
  }

  /** A message the AVR decodes is the first one on the way to it, and if it asks for a reply
      the reply slot is free. */
  lemma ReadFacts(s: State, h: History)
    requires RequestsInv(s, h) && TokenInv(s, h)
    ensures Decodes(s.avr).Some? ==>
              h.reqs != [] && Decodes(s.avr).value == h.reqs[0] && Sendable(h.reqs[0])
              && (h.reqs[0].serial != SERIAL_ID_TO_IGNORE ==> s.avr.slot == [])
  {
    TakeRequest(Inbound(s.avr), Outgoing(s.pi.pc), h.reqs);
    if Decodes(s.avr).Some? {
      OneToken(Serials(h.reqs), s.avr.slot, BodySerials(Bodies(h.items)), s.pi.pending);
    }
  }

  // ----- requests -----

  lemma BeginFlow(outbound: seq<byte>, reqs: seq<Msg>, m: Msg)
    requires RequestsFlow(outbound, reqs) && Sendable(m)
    ensures RequestsFlow(outbound + Wire(m), reqs + [m])
  {
    WiresSnoc(reqs, m);
  }

  lemma BeginOutbound(s: State, m: Msg)
    requires PiReady(s.pi) && Begins(s.pi) == [m]
    ensures Outbound(Next(s, PiMoves)) == Outbound(s) + Wire(m)
    ensures Next(s, PiMoves).pi.toQueue == if s.pi.pc.Top? then s.pi.toQueue else s.pi.toQueue[1..]
    ensures s.pi.pc.Top? ==> m == IDLE
    ensures !s.pi.pc.Top? ==> s.pi.toQueue != [] && m == s.pi.toQueue[0]
  {
    assert Outgoing(Next(s, PiMoves).pi.pc) == Wire(m);
    assert Outgoing(s.pi.pc) == [];
  }

  lemma BeginRequests(s: State, h: History, m: Msg)
    requires RequestsInv(s, h) && PiReady(s.pi) && Begins(s.pi) == [m]
    ensures RequestsInv(Next(s, PiMoves), Note(s, h, PiMoves))
  {
    BeginOutbound(s, m);
    BeginFlow(Outbound(s), h.reqs, m);
    assert Note(s, h, PiMoves).reqs == h.reqs + [m];
  }

  /** A ring read leaves the header and bytes the decoder says; a dispatch does not touch them. */
  lemma ReadLeaves(a: Avr, answered: bool)
    ensures Inbound(ReadStep(a, answered)) == Step(Inbound(a)).0
  {
  }

  lemma ReadRequests(s: State, h: History, answered: bool)
    requires RequestsInv(s, h)
    ensures RequestsInv(Next(s, AvrReads(answered)), Note(s, h, AvrReads(answered)))
  {
    var s1, h1 := Next(s, AvrReads(answered)), Note(s, h, AvrReads(answered));
    TakeRequest(Inbound(s.avr), Outgoing(s.pi.pc), h.reqs);
    ReadLeaves(s.avr, answered);
    assert s1.pi == s.pi && Inbound(s1.avr) == Step(Inbound(s.avr)).0;
    assert Outbound(s1) == Wires(h1.reqs);
  }

  lemma PiRequests(s: State, h: History)
    requires RequestsInv(s, h) && PiReady(s.pi)
    ensures RequestsInv(Next(s, PiMoves), Note(s, h, PiMoves))
  {
    if Begins(s.pi) != [] {
      BeginRequests(s, h, Begins(s.pi)[0]);
    } else {
      assert Outbound(Next(s, PiMoves)) == Outbound(s) && Note(s, h, PiMoves).reqs == h.reqs;
    }
  }

  lemma MoveByte(prefix: seq<byte>, read: seq<byte>, out: seq<byte>)
    requires out != []
    ensures prefix + (read + [out[0]]) + out[1..] == prefix + read + out
  {
  }

  lemma ExchangeRequests(s: State, h: History)
    requires RequestsInv(s, h) && Enabled(s, ByteExchange)
    ensures RequestsInv(Next(s, ByteExchange), Note(s, h, ByteExchange))
  {
    MoveByte(Prefix(s.avr.head), s.avr.read, s.pi.pc.out);
  }

  lemma MovesFrame(a: Avr, action: Action)
    requires !action.AvrReads?
    ensures AvrMoves(a, action).head == a.head && AvrMoves(a, action).read == a.read
  {
  }

  lemma RequestsKept(s: State, h: History, action: Action)
    requires RequestsInv(s, h) && Enabled(s, action)
    ensures RequestsInv(Next(s, action), Note(s, h, action))
  {
    match action
    case PiMoves => PiRequests(s, h);
    case AvrReads(answered) => ReadRequests(s, h, answered);
    case ByteExchange => ExchangeRequests(s, h);
    case _ => MovesFrame(s.avr, action);
  }

  // ----- replies -----

  lemma ParseReplies(s: State, h: History)
    requires RepliesInv(s, h) && s.pi.pc.Parse? && s.pi.pc.got != []
    requires PiRun(s.pi).pc == Parse(s.pi.pc.got[1..], s.pi.pc.polling)
    ensures RepliesInv(Next(s, PiMoves), Note(s, h, PiMoves))
  {
    var (kept, msg) := Push(s.pi.buf, s.pi.pc.got[0]);
    var left := ItemsAfter(h.items, s.pi.buf, s.pi.pc.got[0]);
    ParseFacts(s, h);
    AppendLater(h.received, msg, Bodies(left));
    var s1, h1 := Next(s, PiMoves), Note(s, h, PiMoves);
    assert h1.items == left && s1.pi.buf == kept && s1.avr == s.avr;
    assert Returning(s1) == kept + s.pi.pc.got[1..] + [s.avr.spdr] + s.avr.write;
  }

  lemma AppendLater(a: seq<seq<byte>>, msg: Option<seq<byte>>, c: seq<seq<byte>>)
    ensures var b := if msg.Some? then [msg.value] else [];
            a + (b + c) == a + b + c
  {
  }

  lemma ExchangeReplies(s: State, h: History)
    requires RepliesInv(s, h) && Enabled(s, ByteExchange)
    ensures RepliesInv(Next(s, ByteExchange), Note(s, h, ByteExchange))
    ensures Bodies(Note(s, h, ByteExchange).items) == Bodies(h.items)
  {
    var s1, h1 := Next(s, ByteExchange), Note(s, h, ByteExchange);
    assert Incoming(s1.pi) == Incoming(s.pi) + [s.avr.spdr];
    ExchangeFlow(Incoming(s.pi), s.pi.buf, s.avr.spdr, s.avr.write, h.items);
    if s.avr.write == [] {
      ItemsSnoc(h.items, Noise(SPI_WRITE_UNDERFLOW));
    } else {
      assert h1.items == h.items;
    }
  }

  lemma ExchangeFlow(incoming: seq<byte>, buf: seq<byte>, spdr: byte, write: seq<byte>, items: seq<Item>)
    requires RepliesFlow(incoming + [spdr] + write, buf, items)
    ensures write == [] ==>
              RepliesFlow(incoming + [spdr] + [SPI_WRITE_UNDERFLOW] + [], buf, items + [Noise(SPI_WRITE_UNDERFLOW)])
    ensures write != [] ==> RepliesFlow(incoming + [spdr] + [write[0]] + write[1..], buf, items)
  {
    if write == [] {
      ItemsSnoc(items, Noise(SPI_WRITE_UNDERFLOW));
      assert incoming + [spdr] + write == incoming + [spdr];
    } else {
      assert write == [write[0]] + write[1..];
      assert incoming + [spdr] + [write[0]] + write[1..] == incoming + [spdr] + write;
    }
  }

  lemma WriteFlow(returning: seq<byte>, buf: seq<byte>, h: History, body: seq<byte>)
    requires RepliesFlow(returning, buf, h.items) && RepliesArrive(h) && 2 <= |body| <= 255
    ensures var h1 := h.(items := h.items + [Framed(body)], written := h.written + [body]);
            RepliesFlow(returning + Frame(body), buf, h1.items) && RepliesArrive(h1)
  {
    ItemsSnoc(h.items, Framed(body));
    assert h.received + (Bodies(h.items) + [body]) == h.received + Bodies(h.items) + [body];
  }

  lemma OneFrame(body: seq<byte>)
    ensures Frames([body]) == [Framed(body)]
  {
    assert [body][1..] == [];
  }

  lemma WrittenReplies(s: State, h: History, a1: Avr, body: seq<byte>)
    requires RepliesInv(s, h) && 2 <= |body| <= 255
    requires a1.write == s.avr.write + Frame(body) && a1.irq && a1.spdr == s.avr.spdr
    ensures RepliesInv(WithAvr(s, a1), h.(items := h.items + [Framed(body)], written := h.written + [body]))
  {
    WriteFlow(Returning(s), s.pi.buf, h, body);
    assert Returning(WithAvr(s, a1)) == Returning(s) + Frame(body);
  }

  lemma WriteReplies(s: State, h: History, action: Action, body: seq<byte>)
    requires RepliesInv(s, h) && (action.AvrReleases? || action.AvrSends?) && Enabled(s, action)
    requires Writes(s.avr, action) == [body] && 2 <= |body| <= 255
    requires AvrMoves(s.avr, action).write == s.avr.write + Frame(body)
    requires AvrMoves(s.avr, action).irq && AvrMoves(s.avr, action).spdr == s.avr.spdr
    ensures RepliesInv(Next(s, action), Note(s, h, action))
  {
    WrittenReplies(s, h, AvrMoves(s.avr, action), body);
    WriteNotes(s, h, action, body);
  }

  lemma WriteNotes(s: State, h: History, action: Action, body: seq<byte>)
    requires (action.AvrReleases? || action.AvrSends?) && Enabled(s, action)
    requires Writes(s.avr, action) == [body]
    ensures Note(s, h, action) == h.(items := h.items + [Framed(body)], written := h.written + [body])
  {
    OneFrame(body);
  }

  lemma ReleaseWrites(a: Avr)
    requires SlotShape(a.slot) && a.slot != [] && EnoughSpace(a)
    ensures PostponeTry(a) == a.(write := a.write + Frame(SlotBody(a.slot)), irq := true, slot := [])
    ensures |SlotBody(a.slot)| == 4
  {
  }

  lemma SendWrites(a: Avr, id: byte, payload: seq<byte>)
    requires Writable(a) && |payload| <= 8
    ensures var m := Msg(SERIAL_ID_TO_IGNORE, id, payload);
            EncodeMsg(a, m) == a.(write := a.write + Wire(m), irq := true)
  {
  }

  lemma QuietMoves(a: Avr, action: Action)
    requires !action.AvrReads? && Writes(a, action) == []
    ensures var a1 := AvrMoves(a, action);
            a1.slot == a.slot && a1.write == a.write && a1.spdr == a.spdr && (a.irq ==> a1.irq)
  {
  }

  lemma QuietNotes(s: State, h: History, action: Action)
    requires Enabled(s, action) && !action.ByteExchange? && Writes(s.avr, action) == []
    requires action.PiMoves? ==> !(s.pi.pc.Parse? && s.pi.pc.got != [])
    ensures var h1 := Note(s, h, action);
            h1.items == h.items && h1.written == h.written && h1.received == h.received
  {
  }

  lemma QuietIncoming(s: State, action: Action)
    requires Enabled(s, action) && !action.ByteExchange?
    requires action.PiMoves? ==> !(s.pi.pc.Parse? && s.pi.pc.got != [])
    ensures Incoming(Next(s, action).pi) == Incoming(s.pi) && Next(s, action).pi.buf == s.pi.buf
    ensures Next(s, action).avr == AvrMoves(s.avr, action)
  {
  }

  /** Steps that move no byte towards the Pi. */
  lemma QuietReplies(s: State, h: History, action: Action)
    requires RepliesInv(s, h) && Enabled(s, action) && !action.ByteExchange?
    requires action.PiMoves? ==> !(s.pi.pc.Parse? && s.pi.pc.got != [])
    requires action.AvrReads? ==>
               var a1 := AvrMoves(s.avr, action);
               a1.write == s.avr.write && a1.spdr == s.avr.spdr && (s.avr.irq ==> a1.irq)
    requires Writes(s.avr, action) == []
    ensures RepliesInv(Next(s, action), Note(s, h, action))
  {
    QuietNotes(s, h, action);
    QuietIncoming(s, action);
    if !action.AvrReads? {
      QuietMoves(s.avr, action);
    }
  }

  /** A framed STATUS reply to the message with this serial id. */
  predicate IsStatus(slot: seq<byte>, serial: byte) {
    |slot| == 6 && SlotShape(slot) && SlotBody(slot)[..2] == [serial, MSG_ID_STATUS]
    && BodySerial(SlotBody(slot)) == [serial]
  }

  lemma DispatchFacts(a: Avr, m: Msg, answered: bool)
    requires Sendable(m) && (m.serial != SERIAL_ID_TO_IGNORE ==> a.slot == [])
    ensures var a1 := Dispatch(a, m, answered);
            && a1 == a.(slot := a1.slot, shift := a1.shift)
            && (m.serial == SERIAL_ID_TO_IGNORE ==> a1 == a)
            && (m.serial != SERIAL_ID_TO_IGNORE ==> IsStatus(a1.slot, m.serial))
            && a1.shift == (if m.id == MSG_ID_LED_ARRAY then ShiftData(a, m.payload).shift else a.shift)
  {
  }

  /** What decoding one message does, given that the invariant holds before. */
  lemma ReadEffect(s: State, h: History, answered: bool)
    requires RequestsInv(s, h) && TokenInv(s, h)
    ensures var a1 := ReadStep(s.avr, answered);
            && a1 == s.avr.(head := a1.head, read := a1.read, slot := a1.slot, shift := a1.shift)
            && |a1.read| <= |s.avr.read|
            && (match Decodes(s.avr)
                case None => a1.slot == s.avr.slot && a1.shift == s.avr.shift
                case Some(m) =>
                  && (m.serial == SERIAL_ID_TO_IGNORE ==> a1.slot == s.avr.slot)
                  && (m.serial != SERIAL_ID_TO_IGNORE ==> s.avr.slot == [] && IsStatus(a1.slot, m.serial))
                  && a1.shift == (if m.id == MSG_ID_LED_ARRAY then ShiftData(s.avr, m.payload).shift
                                  else s.avr.shift))
  {
    ReadFacts(s, h);
    var (r, msg) := Step(Inbound(s.avr));
    if msg.Some? {
      DispatchFacts(s.avr.(head := r.head, read := r.read), msg.value, answered);
    }
  }

  lemma RepliesKept(s: State, h: History, action: Action)
    requires Inv(s, h) && Enabled(s, action)
    ensures RepliesInv(Next(s, action), Note(s, h, action))
  {
    match action
    case PiMoves =>
      if s.pi.pc.Parse? && s.pi.pc.got != [] {
        ParseRelaxes(s, h);
        ParseReplies(s, h);
      } else {
        QuietReplies(s, h, action);
      }
    case ByteExchange => ExchangeReplies(s, h);
    case AvrReleases =>
      if s.avr.slot != [] && EnoughSpace(s.avr) {
        ReleaseWrites(s.avr);
        WriteReplies(s, h, action, SlotBody(s.avr.slot));
      } else {
        QuietReplies(s, h, action);
      }
    case AvrSends(id, payload) =>
      if Writable(s.avr) {
        SendWrites(s.avr, id, payload);
        WriteReplies(s, h, action, Body(Msg(SERIAL_ID_TO_IGNORE, id, payload)));
      } else {
        QuietReplies(s, h, action);
      }
    case AvrReads(answered) =>
      ReadEffect(s, h, answered);
      QuietReplies(s, h, action);
    case _ => QuietReplies(s, h, action);
  }

  // ----- the token through every step -----

  lemma BeginToken(reqs: seq<Msg>, slot: seq<byte>, z: seq<byte>, m: Msg, pending: byte)
    requires Token(Serials(reqs), slot, z, pending)
    requires pending == SERIAL_ID_TO_IGNORE || m.serial == SERIAL_ID_TO_IGNORE
    ensures Token(Serials(reqs + [m]), slot, z, Engage(pending, m.serial))
  {
    MsgsSnoc(reqs, m);
    assert Serials([m]) == Awaited(m.serial);
    if pending == SERIAL_ID_TO_IGNORE {
      OneToken(Serials(reqs), slot, z, pending);
    }
  }

  lemma BeginsToken(s: State, h: History, m: Msg)
    requires TokenInv(s, h) && PiReady(s.pi) && Begins(s.pi) == [m]
    ensures TokenInv(Next(s, PiMoves), Note(s, h, PiMoves))
  {
    BeginOutbound(s, m);
    BeginToken(h.reqs, s.avr.slot, BodySerials(Bodies(h.items)), m, s.pi.pending);
  }

  lemma PiToken(s: State, h: History)
    requires RepliesInv(s, h) && TokenInv(s, h) && PiReady(s.pi)
    ensures TokenInv(Next(s, PiMoves), Note(s, h, PiMoves))
  {
    if Begins(s.pi) != [] {
      BeginsToken(s, h, Begins(s.pi)[0]);
    } else {
      var s1, h1 := Next(s, PiMoves), Note(s, h, PiMoves);
      assert s1.avr == s.avr && h1.reqs == h.reqs;
      assert h1.decoded == h.decoded && h1.written == h.written;
      if s.pi.pc.Parse? && s.pi.pc.got != [] {
        ParseRelaxes(s, h);
      } else {
        assert h1 == h && s1.pi.pending == s.pi.pending;
      }
    }
  }

  /** The token moves from the decoded request into the reply slot. */
  lemma ReadToken(m: Msg, reqs: seq<Msg>, slot: seq<byte>, slot1: seq<byte>, z: seq<byte>, pending: byte)
    requires reqs != [] && reqs[0] == m && Token(Serials(reqs), slot, z, pending)
    requires m.serial == SERIAL_ID_TO_IGNORE ==> slot1 == slot
    requires m.serial != SERIAL_ID_TO_IGNORE ==> slot == [] && BodySerial(SlotBody(slot1)) == [m.serial]
    ensures Token(Serials(reqs[1..]), slot1, z, pending)
    ensures BodySerial(SlotBody(slot1)) == BodySerial(SlotBody(slot)) + Awaited(m.serial)
  {
    assert Serials(reqs) == Awaited(m.serial) + Serials(reqs[1..]);
    OneToken(Serials(reqs), slot, z, pending);
  }

  /** A reply is owed for the decoded request, and the slot has it. */
  lemma ReadReplied(decoded: seq<Msg>, written: seq<byte>, slot: seq<byte>, slot1: seq<byte>, m: Msg)
    requires RepliedOnce(Serials(decoded), written, slot)
    requires BodySerial(SlotBody(slot1)) == BodySerial(SlotBody(slot)) + Awaited(m.serial)
    ensures RepliedOnce(Serials(decoded + [m]), written, slot1)
  {
    MsgsSnoc(decoded, m);
    assert Serials([m]) == Awaited(m.serial);
    assert written + BodySerial(SlotBody(slot)) + Awaited(m.serial) == written + BodySerial(SlotBody(slot1));
  }

  lemma ReadsToken(s: State, h: History, answered: bool)
    requires RequestsInv(s, h) && TokenInv(s, h)
    ensures TokenInv(Next(s, AvrReads(answered)), Note(s, h, AvrReads(answered)))
  {
    ReadEffect(s, h, answered);
    ReadFacts(s, h);
    if Decodes(s.avr).Some? {
      var m := Decodes(s.avr).value;
      var slot1 := ReadStep(s.avr, answered).slot;
      ReadToken(m, h.reqs, s.avr.slot, slot1, BodySerials(Bodies(h.items)), s.pi.pending);
      ReadReplied(h.decoded, BodySerials(h.written), s.avr.slot, slot1, m);
    }
  }

  lemma WriteToken(h: History, body: seq<byte>)
    ensures BodySerials(Bodies(h.items + [Framed(body)])) == BodySerials(Bodies(h.items)) + BodySerial(body)
    ensures BodySerials(h.written + [body]) == BodySerials(h.written) + BodySerial(body)
  {
    ItemsSnoc(h.items, Framed(body));
    BodySerialsSnoc(Bodies(h.items), body);
    BodySerialsSnoc(h.written, body);
  }

  lemma ReleaseTokenKept(s: State, h: History)
    requires TokenInv(s, h) && s.avr.slot != [] && EnoughSpace(s.avr)
    ensures TokenInv(Next(s, AvrReleases), Note(s, h, AvrReleases))
  {
    var body := SlotBody(s.avr.slot);
    ReleaseWrites(s.avr);
    OneFrame(body);
    WriteToken(h, body);
    OneToken(Serials(h.reqs), s.avr.slot, BodySerials(Bodies(h.items)), s.pi.pending);
  }

  /** A written frame without a serial id leaves the token where it is. */
  lemma FreeWrite(h: History, slot: seq<byte>, pending: byte, body: seq<byte>)
    requires BodySerial(body) == []
    requires Token(Serials(h.reqs), slot, BodySerials(Bodies(h.items)), pending)
    requires RepliedOnce(Serials(h.decoded), BodySerials(h.written), slot)
    ensures Token(Serials(h.reqs), slot, BodySerials(Bodies(h.items + [Framed(body)])), pending)
    ensures RepliedOnce(Serials(h.decoded), BodySerials(h.written + [body]), slot)
  {
    WriteToken(h, body);
    var z, w := BodySerials(Bodies(h.items)), BodySerials(h.written);
    assert z + [] == z && w + [] == w;
  }

  lemma SendToken(s: State, h: History, id: byte, payload: seq<byte>)
    requires TokenInv(s, h) && Writable(s.avr) && |payload| <= 8
    ensures TokenInv(Next(s, AvrSends(id, payload)), Note(s, h, AvrSends(id, payload)))
  {
    var body := Body(Msg(SERIAL_ID_TO_IGNORE, id, payload));
    SendWrites(s.avr, id, payload);
    WriteNotes(s, h, AvrSends(id, payload), body);
    FreeWrite(h, s.avr.slot, s.pi.pending, body);
  }

  lemma QuietToken(s: State, h: History, action: Action)
    requires TokenInv(s, h) && Enabled(s, action) && !action.PiMoves? && !action.AvrReads?
    requires Writes(s.avr, action) == []
    requires Bodies(Note(s, h, action).items) == Bodies(h.items)
    ensures TokenInv(Next(s, action), Note(s, h, action))
  {
    QuietMoves(s.avr, action);
    var h1 := Note(s, h, action);
    assert h1.reqs == h.reqs && h1.decoded == h.decoded && h1.written == h.written;
  }

  lemma TokenKept(s: State, h: History, action: Action)
    requires Inv(s, h) && Enabled(s, action)
    ensures TokenInv(Next(s, action), Note(s, h, action))
  {
    match action
    case PiMoves => PiToken(s, h);
    case AvrReads(answered) => ReadsToken(s, h, answered);
    case AvrReleases =>
      if s.avr.slot != [] && EnoughSpace(s.avr) {
        ReleaseTokenKept(s, h);
      } else {
        assert h.items + Frames([]) == h.items;
        QuietToken(s, h, action);
      }
    case AvrSends(id, payload) =>
      if Writable(s.avr) {
        SendToken(s, h, id, payload);
      } else {
        assert h.items + Frames([]) == h.items;
        QuietToken(s, h, action);
      }
    case ByteExchange =>
      ExchangeReplies(s, h);
      QuietToken(s, h, action);
    case _ => QuietToken(s, h, action);
  }

  // ----- the Pi thread, room, delivery -----

  lemma PiThread(s: State, missed: bool)
    requires ThreadInv(s, missed) && PiReady(s.pi) && PiRun(s.pi).pc != Crashed
    ensures ThreadInv(Next(s, PiMoves), missed)
  {
    if s.pi.pc.Poll? && s.pi.edges != [] {
      assert Last(s.pi.raised, s.pi.edges) == Last(s.pi.edges[0], s.pi.edges[1..]);
    }
  }

  lemma DeliverThread(s: State, missed: bool)
    requires ThreadInv(s, missed) && s.wire != []
    ensures ThreadInv(Next(s, Deliver), missed)
  {
    assert Last(s.pi.raised, s.pi.edges + [s.wire[0]]) == s.wire[0];
  }

  /** An AVR step lowers the line, which makes a missed rise good, or leaves it up. */
  lemma LineThread(s: State, a: Avr, missed: bool)
    requires ThreadInv(s, missed)
    ensures ThreadInv(WithAvr(s, a), missed && a.irq)
  {
  }

  lemma ExchangeThread(s: State, missed: bool)
    requires ThreadInv(s, missed) && Enabled(s, ByteExchange)
    ensures ThreadInv(Next(s, ByteExchange), missed && s.avr.write != [])
  {
    var pc := s.pi.pc;
    var pi := s.pi.(pc := Transfer(pc.out[1..], pc.got + [s.avr.spdr], pc.polling));
    LineThread(s.(pi := pi), Exchange(s.avr, pc.out[0]), missed);
  }

  lemma LineStays(a: Avr, action: Action)
    ensures a.irq ==> AvrMoves(a, action).irq
  {
  }

  lemma QuietMissed(s: State, h: History, action: Action)
    requires Enabled(s, action) && !action.ByteExchange?
    ensures Note(s, h, action).missed == h.missed
  {
  }

  lemma ThreadKept(s: State, h: History, action: Action)
    requires Inv(s, h) && Enabled(s, action)
    ensures ThreadInv(Next(s, action), Note(s, h, action).missed)
  {
    if action.ByteExchange? {
      ExchangeThread(s, h.missed);
    } else {
      QuietMissed(s, h, action);
      match action
      case PiMoves =>
        if s.pi.pc.Parse? && s.pi.pc.got != [] {
          ParseRelaxes(s, h);
        }
        PiThread(s, h.missed);
      case Deliver => DeliverThread(s, h.missed);
      case SpuriousWakeup =>
      case PushTo(m) =>
      case SetRadio(_) =>
      case _ =>
        LineStays(s.avr, action);
        LineThread(s, AvrMoves(s.avr, action), h.missed);
    }
  }

  /** The items that a step adds end with a frame, unless it is filler, which comes with the line low. */
  lemma UnheardKept(s: State, h: History, action: Action)
    requires RepliesInv(s, h) && Unheard(h.missed, h.items) && Enabled(s, action)
    ensures Unheard(Note(s, h, action).missed, Note(s, h, action).items)
  {
    match action
    case PiMoves =>
      if s.pi.pc.Parse? && s.pi.pc.got != [] {
        ParseFacts(s, h);
        assert ItemsAfter(h.items, s.pi.buf, s.pi.pc.got[0]) != [];
      }
    case AvrReleases => UnheardWrites(s, h, action);
    case AvrSends(_, _) => UnheardWrites(s, h, action);
    case ByteExchange =>
    case _ =>
  }

  lemma UnheardWrites(s: State, h: History, action: Action)
    requires Unheard(h.missed, h.items) && Enabled(s, action) && (action.AvrReleases? || action.AvrSends?)
    ensures Unheard(Note(s, h, action).missed, Note(s, h, action).items)
  {
    var bodies := Writes(s.avr, action);
    if bodies != [] {
      OneFrame(bodies[0]);
      assert bodies == [bodies[0]];
    }
  }

  lemma ReadRooms(s: State, h: History, answered: bool)
    requires RequestsInv(s, h) && TokenInv(s, h) && Rooms(s.avr, h.refused)
    ensures var action := AvrReads(answered);
            Rooms(Next(s, action).avr, Note(s, h, action).refused)
  {
    ReadEffect(s, h, answered);
    ReadFacts(s, h);
  }

  lemma WriteRooms(s: State, h: History, action: Action)
    requires Rooms(s.avr, h.refused) && TokenInv(s, h) && Enabled(s, action)
    requires action.AvrReleases? || action.AvrSends?
    ensures Rooms(AvrMoves(s.avr, action), h.refused)
  {
    if action.AvrReleases? {
      if s.avr.slot != [] && EnoughSpace(s.avr) {
        ReleaseWrites(s.avr);
      }
    } else if Writable(s.avr) {
      SendWrites(s.avr, action.id, action.payload);
    }
  }

  /** Steps that fill neither write_buf nor shift_data. */
  lemma QuietRooms(s: State, h: History, action: Action)
    requires Enabled(s, action) && !action.AvrReads? && !action.AvrReleases? && !action.AvrSends?
    requires !action.ByteExchange?
    ensures Note(s, h, action).refused == h.refused
    ensures var a1 := Next(s, action).avr;
            a1.read == s.avr.read && a1.write == s.avr.write && a1.slot == s.avr.slot
            && |a1.shift| <= |s.avr.shift|
  {
  }

  lemma RoomsKept(s: State, h: History, action: Action)
    requires Inv(s, h) && Enabled(s, action)
    ensures Rooms(Next(s, action).avr, Note(s, h, action).refused)
  {
    match action
    case AvrReads(answered) => ReadRooms(s, h, answered);
    case AvrReleases => WriteRooms(s, h, action);
    case AvrSends(_, _) => WriteRooms(s, h, action);
    case ByteExchange =>
    case _ => QuietRooms(s, h, action);
  }

  lemma BeginDelivery(a: seq<Msg>, b: seq<Msg>, queue: seq<Msg>, pushed: seq<Msg>)
    requires Delivery(a, b, queue, pushed) && queue != []
    ensures Delivery(a, b + [queue[0]], queue[1..], pushed)
  {
    Assoc(a, b, [queue[0]]);
    Assoc(a + b, [queue[0]], queue[1..]);
    assert [queue[0]] + queue[1..] == queue;
  }

  lemma PushDelivery(a: seq<Msg>, b: seq<Msg>, queue: seq<Msg>, pushed: seq<Msg>, m: Msg)
    requires Delivery(a, b, queue, pushed)
    ensures Delivery(a, b, queue + [m], pushed + [m])
  {
    Assoc(a + b, queue, [m]);
  }

  lemma ReadDelivery(decoded: seq<Msg>, reqs: seq<Msg>, queue: seq<Msg>, pushed: seq<Msg>)
    requires Delivery(Real(decoded), Real(reqs), queue, pushed) && reqs != []
    ensures Delivery(Real(decoded + [reqs[0]]), Real(reqs[1..]), queue, pushed)
  {
    RealSnoc(decoded, reqs[0]);
    RealFirst(reqs);
    Assoc(Real(decoded), Real([reqs[0]]), Real(reqs[1..]));
  }

  lemma RealFirst(reqs: seq<Msg>)
    requires reqs != []
    ensures Real(reqs) == Real([reqs[0]]) + Real(reqs[1..])
  {
    NoneLeft(reqs[0]);
    var one := if reqs[0].id == MSG_ID_IDLE then [] else [reqs[0]];
    assert one + [] == one;
  }

  lemma BeginsDelivery(s: State, h: History, m: Msg)
    requires DeliveryInv(s, h) && PiReady(s.pi) && Begins(s.pi) == [m] && Queueable(s.pi.toQueue)
    ensures DeliveryInv(Next(s, PiMoves), Note(s, h, PiMoves))
  {
    BeginOutbound(s, m);
    MsgsSnoc(h.reqs, m);
    if s.pi.pc.Top? {
      assert Real([m]) == [] && Real(h.reqs) + [] == Real(h.reqs);
    } else {
      assert Real([m]) == [m];
      BeginDelivery(Real(h.decoded), Real(h.reqs), s.pi.toQueue, h.pushed);
    }
  }

  lemma PiDelivery(s: State, h: History)
    requires RequestsInv(s, h) && DeliveryInv(s, h) && PiReady(s.pi)
    ensures DeliveryInv(Next(s, PiMoves), Note(s, h, PiMoves))
  {
    if Begins(s.pi) != [] {
      BeginsDelivery(s, h, Begins(s.pi)[0]);
    } else {
      assert Note(s, h, PiMoves).reqs == h.reqs;
    }
  }

  lemma ReadsDelivery(s: State, h: History, answered: bool)
    requires RequestsInv(s, h) && TokenInv(s, h) && DeliveryInv(s, h)
    ensures DeliveryInv(Next(s, AvrReads(answered)), Note(s, h, AvrReads(answered)))
  {
    ReadFacts(s, h);
    if Decodes(s.avr).Some? {
      ReadDelivery(h.decoded, h.reqs, s.pi.toQueue, h.pushed);
    }
  }

  lemma DeliveryKept(s: State, h: History, action: Action)
    requires RequestsInv(s, h) && TokenInv(s, h) && DeliveryInv(s, h) && Enabled(s, action)
    ensures DeliveryInv(Next(s, action), Note(s, h, action))
  {
    match action
    case PiMoves => PiDelivery(s, h);
    case PushTo(m) => PushDelivery(Real(h.decoded), Real(h.reqs), s.pi.toQueue, h.pushed, m);
    case AvrReads(answered) => ReadsDelivery(s, h, answered);
    case _ =>
  }

  lemma ReadShift(shown: seq<byte>, a: Avr, decoded: seq<Msg>, m: Msg)
    requires Sendable(m) && !a.drain && |a.shift| <= BUFFER_SIZE - LED_ARRAY_SIZE
    requires shown + a.shift == Columns(decoded)
    ensures var shift := if m.id == MSG_ID_LED_ARRAY then ShiftData(a, m.payload).shift else a.shift;
            shown + shift == Columns(decoded + [m])
  {
    MsgsSnoc(decoded, m);
    var columns := if m.id == MSG_ID_LED_ARRAY then m.payload else [];
    assert Columns([m]) == columns;
    assert shown + (a.shift + columns) == shown + a.shift + columns;
  }

  /** What a decoded message adds to the history of columns. */
  lemma ReadAccepts(a: Avr, h: History, m: Msg)
    requires Sendable(m) && ColumnsShown(a, h)
    requires m.id == MSG_ID_LED_ARRAY ==> |a.shift| <= BUFFER_SIZE - LED_ARRAY_SIZE
    ensures var shift := if m.id == MSG_ID_LED_ARRAY then ShiftData(a, m.payload).shift else a.shift;
            var dropped := if a.drain then h.dropped + [m] else h.dropped;
            var accepted := if a.drain then h.accepted else h.accepted + [m];
            && h.decoded + [m] == dropped + accepted && (a.drain ==> accepted == [])
            && h.shown + shift == Columns(accepted)
  {
    if !a.drain {
      assert h.dropped + (h.accepted + [m]) == h.dropped + h.accepted + [m];
      if m.id == MSG_ID_LED_ARRAY {
        ReadShift(h.shown, a, h.accepted, m);
      } else {
        OtherColumns(h.accepted, m);
      }
    }
  }

  lemma ReadColumns(s: State, h: History, answered: bool)
    requires RequestsInv(s, h) && TokenInv(s, h) && Rooms(s.avr, h.refused) && ColumnsShown(s.avr, h)
    ensures ColumnsShown(Next(s, AvrReads(answered)).avr, Note(s, h, AvrReads(answered)))
  {
    ReadEffect(s, h, answered);
    ReadFacts(s, h);
    if Decodes(s.avr).Some? {
      ReadAccepts(s.avr, h, Decodes(s.avr).value);
    }
  }

  lemma OtherColumns(decoded: seq<Msg>, m: Msg)
    requires m.id != MSG_ID_LED_ARRAY
    ensures Columns(decoded + [m]) == Columns(decoded)
  {
    MsgsSnoc(decoded, m);
    assert Columns([m]) == [] && Columns(decoded) + [] == Columns(decoded);
  }

  lemma DisplayColumns(s: State, h: History)
    requires ColumnsShown(s.avr, h) && Enabled(s, Display)
    ensures ColumnsShown(ShiftDisplay(s.avr), Note(s, h, Display))
  {
    if |s.avr.shift| >= MIN_DATA_SIZE {
      assert h.shown + s.avr.shift == h.shown + [s.avr.shift[0]] + s.avr.shift[1..];
    } else {
      assert h.shown + [] == h.shown;
    }
  }

  lemma DrainColumns(s: State, h: History)
    requires ColumnsShown(s.avr, h)
    ensures ColumnsShown(DrainStart(s.avr), Note(s, h, StartDrain))
  {
    assert h.dropped + h.accepted + [] == h.dropped + h.accepted;
  }

  /** Steps that neither decode, nor display, nor begin to drain. */
  lemma QuietColumns(s: State, h: History, action: Action)
    requires Enabled(s, action) && !action.AvrReads? && !action.Display? && !action.StartDrain?
    ensures var a1, h1 := Next(s, action).avr, Note(s, h, action);
            && a1.shift == s.avr.shift && (a1.drain ==> s.avr.drain)
            && h1.shown == h.shown && h1.decoded == h.decoded
            && h1.dropped == h.dropped && h1.accepted == h.accepted
  {
  }

  lemma ColumnsKept(s: State, h: History, action: Action)
    requires RequestsInv(s, h) && TokenInv(s, h) && Rooms(s.avr, h.refused) && ColumnsShown(s.avr, h)
    requires Enabled(s, action)
    ensures ColumnsShown(Next(s, action).avr, Note(s, h, action))
  {
    match action
    case AvrReads(answered) => ReadColumns(s, h, answered);
    case Display => DisplayColumns(s, h);
    case StartDrain => DrainColumns(s, h);
    case _ => QuietColumns(s, h, action);
  }

  /** Every step of the link keeps the invariant. */
  lemma StepKeeps(s: State, h: History, action: Action)
    requires Inv(s, h) && Enabled(s, action)
    ensures Inv(Next(s, action), Note(s, h, action))
  {
    RequestsKept(s, h, action);
    RepliesKept(s, h, action);
    TokenKept(s, h, action);
    ThreadKept(s, h, action);
    UnheardKept(s, h, action);
    RoomsKept(s, h, action);
    DeliveryKept(s, h, action);
    ColumnsKept(s, h, action);
  }

  /** The invariant holds in every state of every run. */
  lemma {:induction false} RunKeeps(s: State, h: History, actions: seq<Action>)
    requires Inv(s, h) && Legal(s, actions)
    ensures Inv(Run(s, actions), RunNotes(s, h, actions))
    decreases |actions|
  {
    if actions != [] {
      StepKeeps(s, h, actions[0]);
      RunKeeps(Next(s, actions[0]), Note(s, h, actions[0]), actions[1..]);
    }
  }
}
