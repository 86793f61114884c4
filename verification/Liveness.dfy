/** Runs that the link can make by itself, phase by phase: the AVR reads, the Pi transfers and
    parses, the AVR displays and releases, until a waiting Pi has its reply. */
module Liveness {
  import opened Constants
  import opened Framing
  import opened Decoder
  import opened Slave
  import opened Link
  import opened LinkInvariant
  import opened LinkProof
  import opened LinkTheorems

  // ----- paths -----

  /** What the Pi thread, the kernel and the AVR do without anybody's help. */
  predicate Own(a: Action) {
    a.PiMoves? || a.Deliver? || a.ByteExchange? || a.AvrReads? || a.AvrReleases? || a.Display?
  }

  /** `actions` of the link itself lead from one state and history to another. */
  predicate Path(s: State, h: History, actions: seq<Action>, s2: State, h2: History) {
    && (forall a <- actions :: Own(a)) && Legal(s, actions)
    && s2 == Run(s, actions) && h2 == RunNotes(s, h, actions)
    && s2.radio == s.radio && (h2.missed ==> h.missed)
  }

  lemma OwnStep(s: State, h: History, action: Action)
    requires Enabled(s, action) && Own(action)
    ensures Next(s, action).radio == s.radio && (Note(s, h, action).missed ==> h.missed)
  {
  }

  lemma {:induction false} PathJoin(s: State, h: History, a: seq<Action>, s1: State, h1: History, b: seq<Action>,
                                    s2: State, h2: History)
    requires Path(s, h, a, s1, h1) && Path(s1, h1, b, s2, h2)
    ensures Path(s, h, a + b, s2, h2)
    decreases |a|
  {
    if a == [] {
      assert a + b == b;
    } else {
      assert (a + b)[0] == a[0] && (a + b)[1..] == a[1..] + b;
      OwnStep(s, h, a[0]);
      PathTail(s, h, a, s1, h1);
      PathJoin(Next(s, a[0]), Note(s, h, a[0]), a[1..], s1, h1, b, s2, h2);
    }
  }

  lemma {:induction false} PathTail(s: State, h: History, a: seq<Action>, s1: State, h1: History)
    requires a != [] && Path(s, h, a, s1, h1)
    ensures Path(Next(s, a[0]), Note(s, h, a[0]), a[1..], s1, h1)
    decreases |a|
  {
    var sa, ha := Next(s, a[0]), Note(s, h, a[0]);
    OwnStep(s, h, a[0]);
    OwnRun(sa, ha, a[1..]);
  }

  lemma {:induction false} OwnRun(s: State, h: History, actions: seq<Action>)
    requires Legal(s, actions) && forall a <- actions :: Own(a)
    ensures Run(s, actions).radio == s.radio && (RunNotes(s, h, actions).missed ==> h.missed)
    decreases |actions|
  {
    if actions != [] {
      OwnStep(s, h, actions[0]);
      OwnRun(Next(s, actions[0]), Note(s, h, actions[0]), actions[1..]);
    }
  }

  lemma SingleRun(s: State, h: History, action: Action)
    requires Enabled(s, action)
    ensures Legal(s, [action]) && Run(s, [action]) == Next(s, action) && RunNotes(s, h, [action]) == Note(s, h, action)
  {
    assert [action][1..] == [];
  }

  lemma PathStep(s: State, h: History, action: Action) returns (s1: State, h1: History)
    requires Inv(s, h) && Enabled(s, action) && Own(action)
    ensures Path(s, h, [action], s1, h1) && Inv(s1, h1)
    ensures s1 == Next(s, action) && h1 == Note(s, h, action)
  {
    s1, h1 := Next(s, action), Note(s, h, action);
    StepKeeps(s, h, action);
    OwnStep(s, h, action);
    SingleRun(s, h, action);
  }

  lemma WaitOnce(s: State, h: History) returns (s1: State, h1: History)
    requires Inv(s, h) && s.avr.irq && !h.missed && !Transferring(s.pi)
    ensures Path(s, h, [Waiting(s)], s1, h1) && Inv(s1, h1) && s1.avr == s.avr && Nearer(s1, s)
  {
    PollStep(s, h);
    s1, h1 := PathStep(s, h, Waiting(s));
  }

  /** Whenever IRQ is high and its rise was not missed, the Pi thread's own moves and the delivery
      of edges lead to a byte exchange, whatever it was doing. */
  lemma {:induction false} RaisedLineIsPolled(s: State, h: History)
    returns (actions: seq<Action>, s2: State, h2: History)
    requires Inv(s, h) && s.avr.irq && !h.missed
    ensures Path(s, h, actions, s2, h2) && (forall a <- actions :: a.PiMoves? || a.Deliver?)
    ensures s2.avr == s.avr && Transferring(s2.pi)
    decreases |s.wire|, |s.pi.edges|, Place(s.pi), Left(s.pi.pc)
  {
    if Transferring(s.pi) {
      actions, s2, h2 := [], s, h;
    } else {
      var s1, h1 := WaitOnce(s, h);
      if Transferring(s1.pi) {
        actions, s2, h2 := [Waiting(s)], s1, h1;
      } else {
        var rest;
        rest, s2, h2 := RaisedLineIsPolled(s1, h1);
        actions := [Waiting(s)] + rest;
        PathJoin(s, h, [Waiting(s)], s1, h1, rest, s2, h2);
      }
    }
  }

  // ----- the AVR reads -----

  lemma ReadMoves(a: Avr, answered: bool)
    requires !Blocked(Inbound(a))
    ensures ReadWork(ReadStep(a, answered)) < ReadWork(a)
  {
    var (r, msg) := Step(Inbound(a));
    if msg.Some? {
      PayloadStep(a, answered);
      DispatchReads(a.(read := r.read), msg.value, answered);
    }
  }

  /** Only reading has happened: the Pi, SPDR, write_buf and the line are as they were. */
  predicate OnlyRead(s: State, h: History, s2: State, h2: History) {
    && s2.pi == s.pi && s2.wire == s.wire
    && s2.avr.write == s.avr.write && s2.avr.spdr == s.avr.spdr && s2.avr.irq == s.avr.irq
    && (Serials(h.reqs) == [] ==> s2.avr.slot == s.avr.slot && Serials(h2.reqs) == [])
  }

  /** What a ring read does on the AVR. */
  lemma ReadAvr(s: State, h: History)
    requires RequestsInv(s, h) && TokenInv(s, h)
    ensures var a1 := ReadStep(s.avr, true);
            && a1.write == s.avr.write && a1.spdr == s.avr.spdr && a1.irq == s.avr.irq
            && (Serials(h.reqs) == [] ==> a1.slot == s.avr.slot)
  {
    ReadEffect(s, h, true);
    ReadFacts(s, h);
    if Decodes(s.avr).Some? && Serials(h.reqs) == [] {
      FirstSerial(h.reqs);
    }
  }

  lemma FirstSerial(reqs: seq<Msg>)
    requires reqs != [] && Serials(reqs) == []
    ensures reqs[0].serial == SERIAL_ID_TO_IGNORE && Serials(reqs[1..]) == []
  {
  }

  /** And what it takes off the requests. */
  lemma ReadReqs(s: State, h: History)
    requires RequestsInv(s, h) && TokenInv(s, h) && Serials(h.reqs) == []
    ensures Serials(Note(s, h, AvrReads(true)).reqs) == []
  {
    ReadFacts(s, h);
    if Decodes(s.avr).Some? {
      FirstSerial(h.reqs);
    }
  }

  lemma ReadOnceEffect(s: State, h: History)
    requires RequestsInv(s, h) && TokenInv(s, h)
    ensures OnlyRead(s, h, Next(s, AvrReads(true)), Note(s, h, AvrReads(true)))
  {
    ReadAvr(s, h);
    if Serials(h.reqs) == [] {
      ReadReqs(s, h);
    }
  }

  lemma ReadOnce(s: State, h: History) returns (s1: State, h1: History)
    requires Inv(s, h)
    ensures Path(s, h, [AvrReads(true)], s1, h1) && Inv(s1, h1) && OnlyRead(s, h, s1, h1)
    ensures s1.avr == ReadStep(s.avr, true)
  {
    ReadOnceEffect(s, h);
    s1, h1 := PathStep(s, h, AvrReads(true));
  }

  lemma {:induction false} ReadAll(s: State, h: History) returns (actions: seq<Action>, s2: State, h2: History)
    requires Inv(s, h)
    ensures Path(s, h, actions, s2, h2) && Inv(s2, h2) && OnlyRead(s, h, s2, h2)
    ensures Blocked(Inbound(s2.avr))
    decreases ReadWork(s.avr)
  {
    if Blocked(Inbound(s.avr)) {
      actions, s2, h2 := [], s, h;
    } else {
      ReadMoves(s.avr, true);
      var s1, h1 := ReadOnce(s, h);
      var rest;
      rest, s2, h2 := ReadAll(s1, h1);
      actions := [AvrReads(true)] + rest;
      PathJoin(s, h, [AvrReads(true)], s1, h1, rest, s2, h2);
    }
  }

  lemma BlockedRoom(s: State, h: History)
    requires RequestsInv(s, h) && Blocked(Inbound(s.avr))
    ensures ReadRoom(s.avr) && Space(s.avr.read) >= ENOUGH_SPACE
  {
    HeadFits(s, h);
  }

  // ----- the Pi's transfer -----

  /** Bytes waiting to go to the Pi, and the line to be lowered. */
  function Load(a: Avr): nat {
    2 * |a.write| + if a.irq then 1 else 0
  }

  /** The transfer has gone on, with the Pi otherwise as it was. */
  predicate OnlyTransferred(s: State, h: History, s2: State, h2: History) {
    && s.pi.pc.Transfer? && s2.pi.pc.Transfer? && s2.pi == s.pi.(pc := s2.pi.pc)
    && (Serials(h.reqs) == [] ==> s2.avr.slot == s.avr.slot && Serials(h2.reqs) == [])
    && Load(s2.avr) <= Load(s.avr)
  }

  /** What the Pi will have received after `k` more exchanges, if write_buf has the bytes. */
  function Arriving(incoming: seq<byte>, spdr: byte, write: seq<byte>, k: nat): seq<byte>
    requires k <= |write| + 1
  {
    incoming + ([spdr] + write)[..k]
  }

  lemma ArrivingNext(incoming: seq<byte>, spdr: byte, write: seq<byte>, k: nat)
    requires 0 < k <= |write| && write != []
    ensures Arriving(incoming, spdr, write, k) == Arriving(incoming + [spdr], write[0], write[1..], k - 1)
  {
    assert [spdr] + write == [spdr] + ([write[0]] + write[1..]);
    assert ([spdr] + write)[..k] == [spdr] + ([write[0]] + write[1..])[..k - 1];
  }

  lemma ExchangeEffect(s: State, h: History)
    requires Enabled(s, ByteExchange)
    ensures var s1, h1 := Next(s, ByteExchange), Note(s, h, ByteExchange);
            && OnlyTransferred(s, h, s1, h1) && s1.pi.pc.out == s.pi.pc.out[1..]
            && (s.avr.irq ==> Load(s1.avr) < Load(s.avr))
            && (if s.avr.write == [] then !h1.missed
                else s1.avr.spdr == s.avr.write[0] && s1.avr.write == s.avr.write[1..])
            && Incoming(s1.pi) == Incoming(s.pi) + [s.avr.spdr]
  {
  }

  lemma ExchangeOnce(s: State, h: History) returns (s1: State, h1: History)
    requires Inv(s, h) && Transferring(s.pi) && ReadRoom(s.avr)
    ensures Path(s, h, [ByteExchange], s1, h1) && Inv(s1, h1) && OnlyTransferred(s, h, s1, h1)
    ensures s1.pi.pc.out == s.pi.pc.out[1..] && (s.avr.irq ==> Load(s1.avr) < Load(s.avr))
    ensures if s.avr.write == [] then !h1.missed
            else s1.avr.spdr == s.avr.write[0] && s1.avr.write == s.avr.write[1..]
    ensures Incoming(s1.pi) == Incoming(s.pi) + [s.avr.spdr]
  {
    ExchangeEffect(s, h);
    s1, h1 := PathStep(s, h, ByteExchange);
  }

  /** What a whole transfer does for the Pi: it makes a missed rise good if it is longer than what
      write_buf holds, and else brings just those bytes. */
  predicate Transferred(s: State, h: History, s2: State, h2: History)
    requires s.pi.pc.Transfer?
  {
    && (|s.pi.pc.out| > |s.avr.write| ==> !h2.missed)
    && (|s.pi.pc.out| <= |s.avr.write| ==>
          Incoming(s2.pi) == Arriving(Incoming(s.pi), s.avr.spdr, s.avr.write, |s.pi.pc.out|))
  }

  lemma TransferredFirst(s: State, h: History, s1: State, h1: History, s2: State, h2: History)
    requires Transferring(s.pi) && s1.pi.pc.Transfer? && s1.pi.pc.out == s.pi.pc.out[1..]
    requires if s.avr.write == [] then !h1.missed
             else s1.avr.spdr == s.avr.write[0] && s1.avr.write == s.avr.write[1..]
    requires Incoming(s1.pi) == Incoming(s.pi) + [s.avr.spdr] && (h2.missed ==> h1.missed)
    requires Transferred(s1, h1, s2, h2)
    ensures Transferred(s, h, s2, h2)
  {
    if |s.pi.pc.out| <= |s.avr.write| {
      ArrivingNext(Incoming(s.pi), s.avr.spdr, s.avr.write, |s.pi.pc.out|);
    }
  }

  /** One byte exchanged, with the AVR reading first. */
  lemma ReadAndExchange(s: State, h: History) returns (actions: seq<Action>, s1: State, h1: History)
    requires Inv(s, h) && Transferring(s.pi)
    ensures Path(s, h, actions, s1, h1) && Inv(s1, h1) && OnlyTransferred(s, h, s1, h1)
    ensures s1.pi.pc.out == s.pi.pc.out[1..] && (s.avr.irq ==> Load(s1.avr) < Load(s.avr))
    ensures if s.avr.write == [] then !h1.missed
            else s1.avr.spdr == s.avr.write[0] && s1.avr.write == s.avr.write[1..]
    ensures Incoming(s1.pi) == Incoming(s.pi) + [s.avr.spdr]
  {
    var reading, s0, h0 := ReadAll(s, h);
    BlockedRoom(s0, h0);
    s1, h1 := ExchangeOnce(s0, h0);
    PathJoin(s, h, reading, s0, h0, [ByteExchange], s1, h1);
    actions := reading + [ByteExchange];
  }

  lemma {:induction false} ExchangeAll(s: State, h: History) returns (actions: seq<Action>, s2: State, h2: History)
    requires Inv(s, h) && s.pi.pc.Transfer?
    ensures Path(s, h, actions, s2, h2) && Inv(s2, h2) && OnlyTransferred(s, h, s2, h2)
    ensures s2.pi.pc.out == [] && (s.pi.pc.out != [] && s.avr.irq ==> Load(s2.avr) < Load(s.avr))
    ensures Transferred(s, h, s2, h2)
    decreases |s.pi.pc.out|
  {
    if s.pi.pc.out == [] {
      actions, s2, h2 := [], s, h;
      assert Incoming(s.pi) + [] == Incoming(s.pi);
    } else {
      var first, s1, h1 := ReadAndExchange(s, h);
      var rest;
      rest, s2, h2 := ExchangeAll(s1, h1);
      TransferredFirst(s, h, s1, h1, s2, h2);
      actions := first + rest;
      PathJoin(s, h, first, s1, h1, rest, s2, h2);
    }
  }

  // ----- the Pi parses -----

  /** A byte parsed leaves the lock as it is, or releases it. */
  lemma ParsePending(pi: Pi)
    requires pi.pc.Parse? && pi.pc.got != [] && PiRun(pi).pc.Parse?
    ensures PiRun(pi).pending == pi.pending || PiRun(pi).pending == SERIAL_ID_TO_IGNORE
  {
  }

  lemma ParseNote(s: State, h: History)
    requires s.pi.pc.Parse? && s.pi.pc.got != []
    ensures Note(s, h, PiMoves).reqs == h.reqs
  {
  }

  lemma ParseGoesOn(s: State, h: History)
    requires RepliesInv(s, h) && TokenInv(s, h) && s.pi.pc.Parse? && s.pi.pc.got != []
    ensures PiRun(s.pi).pc == Parse(s.pi.pc.got[1..], s.pi.pc.polling)
  {
    ParseRelaxes(s, h);
  }

  lemma ParseEffect(s: State, h: History)
    requires RepliesInv(s, h) && TokenInv(s, h) && s.pi.pc.Parse? && s.pi.pc.got != []
    ensures var s1, h1 := Next(s, PiMoves), Note(s, h, PiMoves);
            && s1.avr == s.avr && h1.reqs == h.reqs
            && s1.pi.pc == Parse(s.pi.pc.got[1..], s.pi.pc.polling)
            && (s1.pi.pending == s.pi.pending || s1.pi.pending == SERIAL_ID_TO_IGNORE)
  {
    ParseGoesOn(s, h);
    ParsePending(s.pi);
    ParseNote(s, h);
  }

  /** What parsing a byte leaves of the messages received. */
  lemma ParseScan(pi: Pi)
    requires pi.pc.Parse? && pi.pc.got != [] && Partial(pi.buf)
    ensures var (kept, msg) := Push(pi.buf, pi.pc.got[0]);
            && Scan(Incoming(pi)) == (if msg.Some? then [msg.value] else []) + Scan(kept + pi.pc.got[1..])
            && (msg.Some? ==> |msg.value| >= 2)
  {
    SplitByte(pi.buf, pi.pc.got);
    PushScans(pi.buf, pi.pc.got[0], pi.pc.got[1..]);
    PushPartial(pi.buf, pi.pc.got[0]);
  }

  lemma ParseRuns(pi: Pi)
    requires pi.pc.Parse? && pi.pc.got != [] && PiRun(pi).pc.Parse?
    requires Push(pi.buf, pi.pc.got[0]).1.Some? ==> |Push(pi.buf, pi.pc.got[0]).1.value| >= 2
    ensures var (kept, msg) := Push(pi.buf, pi.pc.got[0]);
            && Incoming(PiRun(pi)) == kept + pi.pc.got[1..]
            && (msg.Some? && msg.value[0] != SERIAL_ID_TO_IGNORE ==> PiRun(pi).pending == SERIAL_ID_TO_IGNORE)
  {
  }

  lemma SerialLeft(msg: Option<seq<byte>>, left: seq<seq<byte>>)
    requires BodySerials((if msg.Some? then [msg.value] else []) + left) != []
    ensures (msg.Some? && msg.value != [] && msg.value[0] != SERIAL_ID_TO_IGNORE) || BodySerials(left) != []
  {
    if msg.Some? {
      assert ([msg.value] + left)[1..] == left;
    } else {
      assert [] + left == left;
    }
  }

  /** A message with a serial id among the bytes received is parsed, or still among them. */
  lemma ParseSerial(pi: Pi)
    requires pi.pc.Parse? && pi.pc.got != [] && Partial(pi.buf) && PiRun(pi).pc.Parse?
    requires BodySerials(Scan(Incoming(pi))) != []
    ensures PiRun(pi).pending == SERIAL_ID_TO_IGNORE || BodySerials(Scan(Incoming(PiRun(pi)))) != []
  {
    ParseScan(pi);
    ParseRuns(pi);
    var (kept, msg) := Push(pi.buf, pi.pc.got[0]);
    SerialLeft(msg, Scan(kept + pi.pc.got[1..]));
  }

  lemma ParseOnce(s: State, h: History) returns (s1: State, h1: History)
    requires Inv(s, h) && s.pi.pc.Parse? && s.pi.pc.got != []
    ensures Path(s, h, [PiMoves], s1, h1) && Inv(s1, h1) && s1.avr == s.avr && h1.reqs == h.reqs
    ensures s1.pi == PiRun(s.pi) && s1.pi.pc == Parse(s.pi.pc.got[1..], s.pi.pc.polling)
    ensures s1.pi.pending == s.pi.pending || s1.pi.pending == SERIAL_ID_TO_IGNORE
  {
    ParseEffect(s, h);
    s1, h1 := PathStep(s, h, PiMoves);
  }

  /** All bytes parsed, unless a reply has come before; one that is among them does come. */
  lemma {:induction false} ParseGot(s: State, h: History) returns (actions: seq<Action>, s2: State, h2: History)
    requires Inv(s, h) && s.pi.pc.Parse?
    ensures Path(s, h, actions, s2, h2) && Inv(s2, h2) && s2.avr == s.avr && h2.reqs == h.reqs
    ensures s2.pi.pending == SERIAL_ID_TO_IGNORE
            || (s2.pi.pending == s.pi.pending && s2.pi.pc.Parse? && s2.pi.pc.got == [])
    ensures BodySerials(Scan(Incoming(s.pi))) != [] ==> s2.pi.pending == SERIAL_ID_TO_IGNORE
    decreases |s.pi.pc.got|
  {
    if s.pi.pc.got == [] || s.pi.pending == SERIAL_ID_TO_IGNORE {
      actions, s2, h2 := [], s, h;
      if s.pi.pc.got == [] {
        PartialEmpty(s.pi.buf);
        assert Incoming(s.pi) == s.pi.buf;
      }
    } else {
      var s1, h1 := ParseOnce(s, h);
      if BodySerials(Scan(Incoming(s.pi))) != [] {
        ParseSerial(s.pi);
      }
      if s1.pi.pending == SERIAL_ID_TO_IGNORE {
        actions, s2, h2 := [PiMoves], s1, h1;
      } else {
        var rest;
        rest, s2, h2 := ParseGot(s1, h1);
        actions := [PiMoves] + rest;
        PathJoin(s, h, [PiMoves], s1, h1, rest, s2, h2);
      }
    }
  }

  lemma PartialEmpty(buf: seq<byte>)
    requires Partial(buf)
    ensures Scan(buf) == []
  {
  }

  /** The Pi is not in the middle of a transfer. */
  predicate Quiet(pc: Pc) {
    !pc.Transfer? && (pc.Parse? ==> pc.got == [])
  }

  lemma BeginEffect(s: State, h: History)
    requires s.pi.pc.Transfer? && s.pi.pc.out == []
    ensures var s1, h1 := Next(s, PiMoves), Note(s, h, PiMoves);
            && s1.avr == s.avr && h1.reqs == h.reqs
            && s1.pi.pc.Parse? && s1.pi.pending == s.pi.pending && Incoming(s1.pi) == Incoming(s.pi)
  {
  }

  /** The loop over the bytes begins. */
  lemma BeginParse(s: State, h: History) returns (s1: State, h1: History)
    requires Inv(s, h) && s.pi.pc.Transfer? && s.pi.pc.out == []
    ensures Path(s, h, [PiMoves], s1, h1) && Inv(s1, h1) && s1.avr == s.avr && h1.reqs == h.reqs
    ensures s1.pi.pc.Parse? && s1.pi.pending == s.pi.pending && Incoming(s1.pi) == Incoming(s.pi)
  {
    BeginEffect(s, h);
    s1, h1 := PathStep(s, h, PiMoves);
  }

  /** The transfer is over: its bytes are parsed, or a reply has come before. */
  predicate Ended(s: State, h: History, s2: State, h2: History) {
    && (s2.pi.pending == SERIAL_ID_TO_IGNORE || (s2.pi.pending == s.pi.pending && Quiet(s2.pi.pc)))
    && (Serials(h.reqs) == [] ==> s2.avr.slot == s.avr.slot && Serials(h2.reqs) == [])
    && Load(s2.avr) <= Load(s.avr) && (Transferring(s.pi) && s.avr.irq ==> Load(s2.avr) < Load(s.avr))
  }

  /** What the Pi has received when the transfer under way ends, if write_buf has the bytes. */
  predicate BringsReply(s: State) {
    var k := |Outgoing(s.pi.pc)|;
    k <= |s.avr.write| && BodySerials(Scan(Arriving(Incoming(s.pi), s.avr.spdr, s.avr.write, k))) != []
  }

  lemma FinishTransfer(s: State, h: History) returns (actions: seq<Action>, s2: State, h2: History)
    requires Inv(s, h) && s.pi.pc.Transfer?
    ensures Path(s, h, actions, s2, h2) && Inv(s2, h2) && Ended(s, h, s2, h2)
    ensures |s.pi.pc.out| > |s.avr.write| ==> !h2.missed
    ensures BringsReply(s) ==> s2.pi.pending == SERIAL_ID_TO_IGNORE
  {
    var first, s0, h0 := ExchangeAll(s, h);
    var s1, h1 := BeginParse(s0, h0);
    var rest;
    rest, s2, h2 := ParseGot(s1, h1);
    PathJoin(s, h, first, s0, h0, [PiMoves], s1, h1);
    PathJoin(s, h, first + [PiMoves], s1, h1, rest, s2, h2);
    actions := (first + [PiMoves]) + rest;
  }

  lemma EndTransfer(s: State, h: History) returns (actions: seq<Action>, s2: State, h2: History)
    requires Inv(s, h)
    ensures Path(s, h, actions, s2, h2) && Inv(s2, h2) && Ended(s, h, s2, h2)
    ensures |Outgoing(s.pi.pc)| > |s.avr.write| ==> !h2.missed
    ensures BringsReply(s) ==> s2.pi.pending == SERIAL_ID_TO_IGNORE
  {
    if s.pi.pc.Transfer? {
      actions, s2, h2 := FinishTransfer(s, h);
    } else if s.pi.pc.Parse? {
      assert Incoming(s.pi) + ([s.avr.spdr] + s.avr.write)[..0] == Incoming(s.pi);
      actions, s2, h2 := ParseGot(s, h);
    } else {
      assert Incoming(s.pi) + ([s.avr.spdr] + s.avr.write)[..0] == Incoming(s.pi) == s.pi.buf;
      PartialEmpty(s.pi.buf);
      actions, s2, h2 := [], s, h;
    }
  }

  // ----- the AVR makes room -----

  /** Only shift_data has been shortened. */
  predicate OnlyShown(s: State, h: History, s2: State, h2: History) {
    s2 == s.(avr := s.avr.(shift := s2.avr.shift)) && h2.reqs == h.reqs
  }

  lemma ShowOnce(s: State, h: History) returns (s1: State, h1: History)
    requires Inv(s, h) && |s.avr.shift| >= MIN_DATA_SIZE && s.radio
    ensures Path(s, h, [Display], s1, h1) && Inv(s1, h1) && OnlyShown(s, h, s1, h1)
    ensures |s1.avr.shift| == |s.avr.shift| - 1
  {
    s1, h1 := PathStep(s, h, Display);
  }

  lemma {:induction false} ShowAll(s: State, h: History) returns (actions: seq<Action>, s2: State, h2: History)
    requires Inv(s, h) && s.radio
    ensures Path(s, h, actions, s2, h2) && Inv(s2, h2) && OnlyShown(s, h, s2, h2)
    ensures Space(s2.avr.shift) >= ENOUGH_SPACE
    decreases |s.avr.shift|
  {
    if Space(s.avr.shift) >= ENOUGH_SPACE {
      actions, s2, h2 := [], s, h;
    } else {
      var s1, h1 := ShowOnce(s, h);
      var rest;
      rest, s2, h2 := ShowAll(s1, h1);
      actions := [Display] + rest;
      PathJoin(s, h, [Display], s1, h1, rest, s2, h2);
    }
  }

  lemma ReleaseEffect(s: State, h: History)
    requires SlotShape(s.avr.slot) && s.avr.slot != [] && EnoughSpace(s.avr)
    ensures var s1, h1 := Next(s, AvrReleases), Note(s, h, AvrReleases);
            && s1.pi == s.pi && h1.reqs == h.reqs && s1.avr.slot == []
            && s1.avr.read == s.avr.read && s1.avr.shift == s.avr.shift && s1.avr.head == s.avr.head
  {
    ReleaseWrites(s.avr);
  }

  lemma Release(s: State, h: History) returns (s1: State, h1: History)
    requires Inv(s, h) && s.avr.slot != [] && EnoughSpace(s.avr)
    ensures Path(s, h, [AvrReleases], s1, h1) && Inv(s1, h1)
    ensures s1.pi == s.pi && h1.reqs == h.reqs && s1.avr.slot == []
    ensures s1.avr.read == s.avr.read && s1.avr.shift == s.avr.shift && s1.avr.head == s.avr.head
  {
    ReleaseEffect(s, h);
    s1, h1 := PathStep(s, h, AvrReleases);
  }

  // ----- rounds -----

  /** No transfer, no request on the way, and a reply in the slot only for want of room in
      write_buf. */
  predicate Settled(s: State, h: History) {
    && Quiet(s.pi.pc) && h.reqs == []
    && Space(s.avr.read) >= ENOUGH_SPACE && Space(s.avr.shift) >= ENOUGH_SPACE
    && (s.avr.slot == [] || !Writable(s.avr))
  }

  lemma FirstUnblocked(s: State, h: History)
    requires RequestsInv(s, h) && h.reqs != [] && Outgoing(s.pi.pc) == []
    ensures !Blocked(Inbound(s.avr))
  {
    FirstRequest(h.reqs);
    var all := Wires(h.reqs);
    var prefix := Prefix(s.avr.head);
    assert all == prefix + s.avr.read;
    if s.avr.head.Identified? {
      assert all[..4][1] == prefix[1];
    }
  }

  lemma BlockedEmpty(s: State, h: History)
    requires RequestsInv(s, h) && Blocked(Inbound(s.avr)) && Outgoing(s.pi.pc) == []
    ensures h.reqs == []
  {
    if h.reqs != [] {
      FirstUnblocked(s, h);
    }
  }

  /** A round that began without a request on the way has brought the reply nearer: it has left
      the slot, or less is queued before it. */
  predicate Closer(s: State, h: History, s2: State) {
    Serials(h.reqs) == [] ==>
      || (s.avr.slot != [] && s2.avr.slot == [])
      || (s2.avr.slot == s.avr.slot && Load(s2.avr) <= Load(s.avr)
          && (Transferring(s.pi) && s.avr.irq ==> Load(s2.avr) < Load(s.avr)))
  }

  /** With the transfer over: read, display and release. */
  lemma MakeRoom(s: State, h: History) returns (actions: seq<Action>, s2: State, h2: History)
    requires Inv(s, h) && Quiet(s.pi.pc) && s.radio
    ensures Path(s, h, actions, s2, h2) && Inv(s2, h2) && s2.pi == s.pi && Settled(s2, h2)
    ensures Serials(h.reqs) == [] ==>
              (s.avr.slot != [] && s2.avr.slot == [])
              || (s2.avr.slot == s.avr.slot && Load(s2.avr) == Load(s.avr))
  {
    var first, s0, h0 := ReadAll(s, h);
    BlockedRoom(s0, h0);
    BlockedEmpty(s0, h0);
    var shows, s1, h1 := ShowAll(s0, h0);
    PathJoin(s, h, first, s0, h0, shows, s1, h1);
    actions := first + shows;
    if s1.avr.slot != [] && Writable(s1.avr) {
      s2, h2 := Release(s1, h1);
      PathJoin(s, h, actions, s1, h1, [AvrReleases], s2, h2);
      actions := actions + [AvrReleases];
    } else {
      s2, h2 := s1, h1;
    }
  }

  lemma Settle(s: State, h: History) returns (actions: seq<Action>, s2: State, h2: History)
    requires Inv(s, h) && s.pi.pending != SERIAL_ID_TO_IGNORE && s.radio
    ensures Path(s, h, actions, s2, h2) && Inv(s2, h2)
    ensures |Outgoing(s.pi.pc)| > |s.avr.write| ==> !h2.missed
    ensures BringsReply(s) ==> s2.pi.pending == SERIAL_ID_TO_IGNORE
    ensures s2.pi.pending == SERIAL_ID_TO_IGNORE || (Settled(s2, h2) && Closer(s, h, s2))
  {
    var first, s1, h1 := EndTransfer(s, h);
    actions, s2, h2 := first, s1, h1;
    if s1.pi.pending != SERIAL_ID_TO_IGNORE {
      var rest;
      rest, s2, h2 := MakeRoom(s1, h1);
      PathJoin(s, h, first, s1, h1, rest, s2, h2);
      actions := first + rest;
    }
  }

  /** With the line low and all bytes parsed, no frame is left for the Pi. */
  lemma LowIsEmpty(s: State, h: History)
    requires RepliesInv(s, h) && Quiet(s.pi.pc) && !s.avr.irq
    ensures Bodies(h.items) == [] && Writable(s.avr)
  {
    FillerLast(Incoming(s.pi), s.avr.spdr, h.items);
    assert Incoming(s.pi) == s.pi.buf;
    assert Scan(s.pi.buf) == [];
  }

  /** While the Pi waits for a reply and all is settled, the reply is on its way to the Pi or
      blocked by what is, so the line is high. */
  lemma HighLine(s: State, h: History)
    requires Inv(s, h) && Settled(s, h) && s.pi.pending != SERIAL_ID_TO_IGNORE
    ensures s.avr.irq
  {
    if !s.avr.irq {
      LowIsEmpty(s, h);
    }
  }

  lemma PollEffect(s: State, h: History)
    requires ThreadInv(s, false) && s.avr.irq && s.pi.pending != SERIAL_ID_TO_IGNORE && Quiet(s.pi.pc)
    requires Serials(h.reqs) == []
    ensures Enabled(s, Waiting(s)) && Nearer(Next(s, Waiting(s)), s)
    ensures var s1, h1 := Next(s, Waiting(s)), Note(s, h, Waiting(s));
            && s1.avr == s.avr && s1.pi.pending == s.pi.pending && Serials(h1.reqs) == []
            && (Transferring(s1.pi) || Quiet(s1.pi.pc))
  {
    OtherStep(s);
    MsgsSnoc(h.reqs, IDLE);
    assert h.reqs + [] == h.reqs;
  }

  lemma PollOnce(s: State, h: History) returns (s1: State, h1: History)
    requires Inv(s, h) && !h.missed && s.avr.irq && s.pi.pending != SERIAL_ID_TO_IGNORE && Quiet(s.pi.pc)
    requires Serials(h.reqs) == []
    ensures Path(s, h, [Waiting(s)], s1, h1) && Inv(s1, h1) && Nearer(s1, s)
    ensures s1.avr == s.avr && s1.pi.pending == s.pi.pending && Serials(h1.reqs) == []
    ensures Transferring(s1.pi) || Quiet(s1.pi.pc)
  {
    PollEffect(s, h);
    s1, h1 := PathStep(s, h, Waiting(s));
  }

  /** With the line high the Pi comes to transfer an IDLE frame. */
  lemma {:induction false} Poll(s: State, h: History) returns (actions: seq<Action>, s2: State, h2: History)
    requires Inv(s, h) && !h.missed && s.avr.irq && s.pi.pending != SERIAL_ID_TO_IGNORE && Quiet(s.pi.pc)
    requires Serials(h.reqs) == []
    ensures Path(s, h, actions, s2, h2) && Inv(s2, h2) && s2.avr == s.avr
    ensures Transferring(s2.pi) && s2.pi.pending == s.pi.pending && Serials(h2.reqs) == []
    decreases |s.wire|, |s.pi.edges|, Place(s.pi), Left(s.pi.pc)
  {
    var s1, h1 := PollOnce(s, h);
    if Transferring(s1.pi) {
      actions, s2, h2 := [Waiting(s)], s1, h1;
    } else {
      var rest;
      rest, s2, h2 := Poll(s1, h1);
      actions := [Waiting(s)] + rest;
      PathJoin(s, h, [Waiting(s)], s1, h1, rest, s2, h2);
    }
  }

  /** Round after round the reply comes nearer until the Pi has it. */
  lemma {:induction false} SettledAnswer(s: State, h: History) returns (actions: seq<Action>, s2: State, h2: History)
    requires Inv(s, h) && !h.missed && s.radio && Settled(s, h) && s.pi.pending != SERIAL_ID_TO_IGNORE
    ensures Path(s, h, actions, s2, h2) && s2.pi.pending == SERIAL_ID_TO_IGNORE
    decreases |s.avr.slot|, Load(s.avr)
  {
    HighLine(s, h);
    var first, s0, h0 := Poll(s, h);
    var then0, s1, h1 := Settle(s0, h0);
    PathJoin(s, h, first, s0, h0, then0, s1, h1);
    actions, s2, h2 := first + then0, s1, h1;
    if s1.pi.pending != SERIAL_ID_TO_IGNORE {
      var rest;
      rest, s2, h2 := SettledAnswer(s1, h1);
      PathJoin(s, h, first + then0, s1, h1, rest, s2, h2);
      actions := (first + then0) + rest;
    }
  }

  /** In radio mode the link by itself can answer, unless its first rise was missed and neither is
      made good nor has the reply in it by the end of the transfer under way. */
  lemma Answer(s: State, h: History) returns (actions: seq<Action>, s2: State, h2: History)
    requires Inv(s, h) && s.pi.pending != SERIAL_ID_TO_IGNORE && s.radio
    requires !h.missed || |Outgoing(s.pi.pc)| > |s.avr.write| || BringsReply(s)
    ensures Path(s, h, actions, s2, h2) && s2.pi.pending == SERIAL_ID_TO_IGNORE
  {
    var first, s1, h1 := Settle(s, h);
    actions, s2, h2 := first, s1, h1;
    if s1.pi.pending != SERIAL_ID_TO_IGNORE {
      var rest;
      rest, s2, h2 := SettledAnswer(s1, h1);
      PathJoin(s, h, first, s1, h1, rest, s2, h2);
      actions := first + rest;
    }
  }
}
