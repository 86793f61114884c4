/** The link's state machine against the code at its two ends: the AVR's methods can be called
    in every state a run reaches, and matrices cut up on the Pi come out whole on the AVR. */
module EndToEnd {
  import opened Constants
  import opened RingBuffer
  import opened Framing
  import opened Decoder
  import opened Slave
  import opened Link
  import opened LinkInvariant
  import opened LinkProof
  import opened LinkTheorems
  import opened PiObjects
  import opened HandleObjects

  // ----- the AVR's methods may be called -----

  lemma {:induction false} SaneWires(msgs: seq<Msg>)
    requires AllSendable(msgs)
    ensures Sane(Wires(msgs))
    decreases |msgs|
  {
    if msgs != [] {
      FirstRequest(msgs);
      SaneWires(msgs[1..]);
      var all := Wires(msgs);
      assert all[..4][0] == all[0] && all[..4][1] == all[1];
    }
  }

  lemma {:induction false} SanePrefix(a: seq<byte>, b: seq<byte>)
    requires Sane(a + b)
    ensures Sane(a)
    decreases |a|
  {
    if a != [] {
      var all := a + b;
      if a[0] != EYE_CATCH {
        assert all[1..] == a[1..] + b;
        SanePrefix(a[1..], b);
      } else if |a| >= 2 && Whole(a) {
        var n := FrameLength(a);
        assert all[n..] == a[n..] + b;
        SanePrefix(a[n..], b);
      }
    }
  }

  /** The message a call of decode_try completes is the first request on its way. */
  lemma {:induction false} ReadOnFirst(r: Reading, out: seq<byte>, reqs: seq<Msg>)
    requires Prefix(r.head) + r.read + out == Wires(reqs) && AllSendable(reqs)
    ensures ReadOn(r).1.Some? ==> reqs != [] && ReadOn(r).1.value == reqs[0]
    decreases Rank(r.head)
  {
    TakeRequest(r, out, reqs);
    if !r.head.Hunting? && !Blocked(r) && Step(r).1.None? {
      ReadOnFirst(Step(r).0, out, reqs);
    }
  }

  lemma CallFitsAt(s: State, h: History, a: Avr)
    requires Inv(s, h) && a.shift == s.avr.shift && a.drain == s.avr.drain
    requires Prefix(a.head) + a.read + Outgoing(s.pi.pc) == Wires(h.reqs)
    ensures CallFits(a)
  {
    ReadOnFirst(Inbound(a), Outgoing(s.pi.pc), h.reqs);
    var msg := ReadOn(Inbound(a)).1;
    if msg.Some? && msg.value.serial != SERIAL_ID_TO_IGNORE {
      OneToken(Serials(h.reqs), s.avr.slot, BodySerials(Bodies(h.items)), s.pi.pending);
    }
  }

  lemma SaneAt(s: State, h: History)
    requires RequestsInv(s, h)
    ensures Sane(Pending(Inbound(s.avr), []))
  {
    SaneWires(h.reqs);
    SanePrefix(Prefix(s.avr.head) + s.avr.read, Outgoing(s.pi.pc));
    assert Prefix(s.avr.head) + s.avr.read + [] == Prefix(s.avr.head) + s.avr.read;
  }

  lemma HuntingFits(s: State, h: History, answered: bool)
    requires Inv(s, h) && s.avr.head == Hunting && s.avr.read != []
    ensures CallFits(ReadStep(s.avr, answered))
  {
    TakeRequest(Inbound(s.avr), Outgoing(s.pi.pc), h.reqs);
    CatchStep(s.avr, answered);
    CallFitsAt(s, h, ReadStep(s.avr, answered));
  }

  /** In every state a run reaches, decode_try, the SPI interrupt and the writers of write_buf
      find what they need: sizes that in_buf holds, room in shift_data, and rings that do not
      come to the ambiguous full state. */
  lemma CallsAreSafe(s: State, h: History, answered: bool, start: nat, n: nat)
    requires Reached(s, h)
    ensures Sane(Pending(Inbound(s.avr), []))
    ensures CallFits(if s.avr.head == Hunting && s.avr.read != [] then ReadStep(s.avr, answered) else s.avr)
    ensures ReadRoom(s.avr) ==> !Tops(BUFFER_SIZE, Fifo(s.avr.read, start), 1)
    ensures Writable(s.avr) && n <= 12 ==> !Tops(BUFFER_SIZE, Fifo(s.avr.write, start), n)
  {
    ReachedInv(s, h);
    SaneAt(s, h);
    if s.avr.head == Hunting && s.avr.read != [] {
      HuntingFits(s, h, answered);
    } else {
      CallFitsAt(s, h, s.avr);
    }
  }

  // ----- what the Pi passes on -----

  /** In a reached state there is no mismatch, and what parsing a transfer hands to the rest of the
      program, by McuHandle.Pass, is what the link records as received. */
  lemma PassedOnIsReceived(s: State, h: History) returns (actions: seq<Action>)
    requires Reached(s, h) && s.pi.pc.Parse?
    ensures Legal(s, actions) && Run(s, actions) == s.(pi := ParseAll(s.pi))
    ensures RunNotes(s, h, actions).received == h.received + Scan(s.pi.buf + s.pi.pc.got)
  {
    actions := ParseAllIsMoves(s, h);
    ReachedInv(s, h);
    RunKeeps(s, h, actions);
    ParserScans(s.pi.buf, s.pi.pc.got);
  }


  // ----- matrices -----

  function Flat(matrices: seq<seq<byte>>): seq<byte> {
    if matrices == [] then [] else matrices[0] + Flat(matrices[1..])
  }

  /** The messages for matrices, each cut up from the serial id the generator has reached. */
  function Cut(ids: seq<byte>, matrices: seq<seq<byte>>): seq<Msg>
    requires |ids| == |matrices|
  {
    if matrices == [] then [] else Chunks(ids[0], matrices[0]) + Cut(ids[1..], matrices[1..])
  }

  function LedArrays(msgs: seq<Msg>): seq<Msg> {
    if msgs == [] then []
    else (if msgs[0].id == MSG_ID_LED_ARRAY then [msgs[0]] else []) + LedArrays(msgs[1..])
  }

  lemma {:induction false} CutColumns(ids: seq<byte>, matrices: seq<seq<byte>>)
    requires |ids| == |matrices|
    ensures Columns(Cut(ids, matrices)) == Flat(matrices)
    decreases |matrices|
  {
    if matrices != [] {
      CutColumns(ids[1..], matrices[1..]);
      ChunksCarry(ids[0], matrices[0]);
      ColumnsConcat(Chunks(ids[0], matrices[0]), Cut(ids[1..], matrices[1..]));
    }
  }

  lemma {:induction false} ColumnsLed(msgs: seq<Msg>)
    ensures Columns(LedArrays(msgs)) == Columns(msgs)
    decreases |msgs|
  {
    if msgs != [] {
      ColumnsLed(msgs[1..]);
      if msgs[0].id == MSG_ID_LED_ARRAY {
        assert LedArrays(msgs)[1..] == LedArrays(msgs[1..]);
      } else {
        assert LedArrays(msgs) == LedArrays(msgs[1..]);
      }
    }
  }

  lemma PushedColumns(pushed: seq<Msg>, ids: seq<byte>, matrices: seq<seq<byte>>)
    requires |ids| == |matrices| && LedArrays(pushed) <= Cut(ids, matrices)
    ensures Columns(pushed) <= Flat(matrices)
  {
    ColumnsLed(pushed);
    ColumnsPrefix(LedArrays(pushed), Cut(ids, matrices));
    CutColumns(ids, matrices);
  }

  /** For any matrices the columns displayed since draining last began and those queued in
      shift_data are, in every state, a contiguous stretch of the matrices' columns that begins
      right behind what draining dropped: nothing is lost, repeated or reordered between cutting
      a matrix up and appending to shift_data, whatever else is pushed. */
  lemma MatricesInOrder(s: State, h: History, ids: seq<byte>, matrices: seq<seq<byte>>)
    requires Reached(s, h) && |ids| == |matrices|
    requires LedArrays(h.pushed) <= Cut(ids, matrices)
    ensures Columns(h.dropped) + (h.shown + s.avr.shift) <= Flat(matrices)
  {
    ColumnOrder(s, h);
    PushedColumns(h.pushed, ids, matrices);
  }
}
