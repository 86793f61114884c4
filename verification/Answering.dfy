/** When a waiting Pi can be answered, exactly: always, unless the program's start missed the first
    rise of IRQ and nothing has made that good.  What the start of the program does, and which
    first message heals it. */
module Answering {
  import opened Constants
  import opened Framing
  import opened Decoder
  import opened Slave
  import opened Link
  import opened LinkInvariant
  import opened LinkProof
  import opened LinkTheorems
  import opened Liveness

  /** The Pi waits, has missed the rise of IRQ, and the transfer under way is too short to lower
      the line and brings no reply. */
  predicate Doomed(s: State, h: History) {
    && h.missed && s.pi.pending != SERIAL_ID_TO_IGNORE
    && |Outgoing(s.pi.pc)| <= |s.avr.write| && !BringsReply(s)
  }

  // ----- a doomed link stays so -----

  lemma ArrivingMore(incoming: seq<byte>, spdr: byte, write: seq<byte>, write1: seq<byte>, k: nat)
    requires k <= |write| && write <= write1
    ensures Arriving(incoming, spdr, write, k) == Arriving(incoming, spdr, write1, k)
  {
    assert ([spdr] + write)[..k] == ([spdr] + write1)[..k];
  }

  /** An AVR step only adds to write_buf. */
  lemma AvrAppends(s: State, h: History, action: Action)
    requires RequestsInv(s, h) && TokenInv(s, h) && Enabled(s, action)
    ensures s.avr.write <= AvrMoves(s.avr, action).write && AvrMoves(s.avr, action).spdr == s.avr.spdr
  {
    match action
    case AvrReads(answered) => ReadEffect(s, h, answered);
    case _ =>
  }

  lemma AvrDoomed(s: State, h: History, action: Action)
    requires Inv(s, h) && Doomed(s, h) && Enabled(s, action)
    requires action.AvrReads? || action.AvrReleases? || action.AvrSends? || action.AvrRaises? || action.Display?
             || action.StartDrain? || action.StopDrain?
    ensures Doomed(Next(s, action), Note(s, h, action)) && Next(s, action).pi == s.pi
  {
    AvrAppends(s, h, action);
    QuietMissed(s, h, action);
    ArrivingMore(Incoming(s.pi), s.avr.spdr, s.avr.write, AvrMoves(s.avr, action).write, |Outgoing(s.pi.pc)|);
  }

  lemma ExchangeDoomed(s: State, h: History)
    requires Inv(s, h) && Doomed(s, h) && Enabled(s, ByteExchange)
    ensures Doomed(Next(s, ByteExchange), Note(s, h, ByteExchange))
    ensures Next(s, ByteExchange).pi.pending == s.pi.pending
  {
    ExchangeEffect(s, h);
    ArrivingNext(Incoming(s.pi), s.avr.spdr, s.avr.write, |s.pi.pc.out|);
  }

  lemma NoSerials(msg: Option<seq<byte>>, left: seq<seq<byte>>)
    requires BodySerials((if msg.Some? then [msg.value] else []) + left) == []
    ensures BodySerials(left) == [] && (msg.Some? && msg.value != [] ==> msg.value[0] == SERIAL_ID_TO_IGNORE)
  {
    if msg.Some? {
      assert ([msg.value] + left)[1..] == left;
    } else {
      assert [] + left == left;
    }
  }

  lemma ParseKeeps(pi: Pi)
    requires pi.pc.Parse? && pi.pc.got != [] && PiRun(pi).pc.Parse?
    requires Push(pi.buf, pi.pc.got[0]).1.Some? ==> Push(pi.buf, pi.pc.got[0]).1.value[..1] == [SERIAL_ID_TO_IGNORE]
    ensures PiRun(pi).pending == pi.pending
  {
  }

  lemma ParseDoomed(s: State, h: History)
    requires Inv(s, h) && Doomed(s, h) && s.pi.pc.Parse? && s.pi.pc.got != []
    ensures Doomed(Next(s, PiMoves), Note(s, h, PiMoves)) && Next(s, PiMoves).pi.pending == s.pi.pending
  {
    var got := s.pi.pc.got;
    var (kept, msg) := Push(s.pi.buf, got[0]);
    ParseGoesOn(s, h);
    ParseScan(s.pi);
    NothingArrives(s);
    NoSerials(msg, Scan(kept + got[1..]));
    ParseKeeps(s.pi);
    ParseRuns(s.pi);
    QuietMissed(s, h, PiMoves);
    NothingArrives(Next(s, PiMoves));
  }

  /** With no transfer under way nothing more arrives. */
  lemma NothingArrives(s: State)
    requires Outgoing(s.pi.pc) == []
    ensures BringsReply(s) <==> BodySerials(Scan(Incoming(s.pi))) != []
  {
    assert Incoming(s.pi) + ([s.avr.spdr] + s.avr.write)[..0] == Incoming(s.pi);
  }

  /** A Pi that waits and knows of no edge begins no transfer. */
  lemma WaitingPi(s: State)
    requires ThreadInv(s, true) && s.pi.pending != SERIAL_ID_TO_IGNORE && PiReady(s.pi)
    requires !(s.pi.pc.Parse? && s.pi.pc.got != [])
    ensures var pi := PiRun(s.pi);
            Incoming(pi) == Incoming(s.pi) && Outgoing(pi.pc) == Outgoing(s.pi.pc) && pi.pending == s.pi.pending
  {
  }

  lemma WaitingOthers(s: State, action: Action)
    requires Enabled(s, action) && (action.SpuriousWakeup? || action.PushTo? || action.SetRadio?)
    ensures var s1 := Next(s, action);
            && s1.avr == s.avr && Incoming(s1.pi) == Incoming(s.pi) && Outgoing(s1.pi.pc) == Outgoing(s.pi.pc)
            && s1.pi.pending == s.pi.pending
  {
  }

  lemma SameDoom(s: State, h: History, s1: State, h1: History)
    requires Doomed(s, h) && h1.missed && s1.avr == s.avr
    requires Incoming(s1.pi) == Incoming(s.pi) && Outgoing(s1.pi.pc) == Outgoing(s.pi.pc)
    requires s1.pi.pending == s.pi.pending
    ensures Doomed(s1, h1)
  {
  }

  lemma IdleDoomed(s: State, h: History, action: Action)
    requires Inv(s, h) && Doomed(s, h) && Enabled(s, action)
    requires action.PiMoves? || action.SpuriousWakeup? || action.PushTo? || action.SetRadio?
    requires action.PiMoves? ==> !(s.pi.pc.Parse? && s.pi.pc.got != [])
    ensures Doomed(Next(s, action), Note(s, h, action)) && Next(s, action).pi.pending == s.pi.pending
  {
    QuietMissed(s, h, action);
    if action.PiMoves? {
      WaitingPi(s);
    } else {
      WaitingOthers(s, action);
    }
    SameDoom(s, h, Next(s, action), Note(s, h, action));
  }

  /** No step whatsoever, of the link, of other threads or of the user, answers a doomed Pi. */
  lemma DoomedStays(s: State, h: History, action: Action)
    requires Inv(s, h) && Doomed(s, h) && Enabled(s, action)
    ensures Doomed(Next(s, action), Note(s, h, action)) && Next(s, action).pi.pending == s.pi.pending
  {
    match action
    case PiMoves =>
      if s.pi.pc.Parse? && s.pi.pc.got != [] {
        ParseDoomed(s, h);
      } else {
        IdleDoomed(s, h, action);
      }
    case ByteExchange => ExchangeDoomed(s, h);
    case Deliver => assert false;
    case SpuriousWakeup => IdleDoomed(s, h, action);
    case PushTo(_) => IdleDoomed(s, h, action);
    case SetRadio(_) => IdleDoomed(s, h, action);
    case _ => AvrDoomed(s, h, action);
  }

  lemma {:induction false} DoomedForever(s: State, h: History, actions: seq<Action>)
    requires Inv(s, h) && Doomed(s, h) && Legal(s, actions)
    ensures Run(s, actions).pi.pending == s.pi.pending
    decreases |actions|
  {
    if actions != [] {
      StepKeeps(s, h, actions[0]);
      DoomedStays(s, h, actions[0]);
      DoomedForever(Next(s, actions[0]), Note(s, h, actions[0]), actions[1..]);
    }
  }

  // ----- every other link can answer -----

  lemma RadioNote(s: State, h: History)
    ensures Next(s, SetRadio(true)) == s.(radio := true) && Note(s, h, SetRadio(true)) == h
  {
  }

  lemma RadioOn(s: State, h: History)
    requires Inv(s, h)
    ensures Inv(Next(s, SetRadio(true)), h)
  {
    RadioNote(s, h);
    StepKeeps(s, h, SetRadio(true));
  }

  lemma RadioDoom(s: State, h: History)
    ensures Doomed(s.(radio := true), h) <==> Doomed(s, h)
  {
  }

  lemma Cons(s: State, h: History, a: Action, rest: seq<Action>)
    requires Enabled(s, a) && Legal(Next(s, a), rest)
    ensures Legal(s, [a] + rest) && Run(s, [a] + rest) == Run(Next(s, a), rest)
    ensures RunNotes(s, h, [a] + rest) == RunNotes(Next(s, a), Note(s, h, a), rest)
  {
    assert ([a] + rest)[1..] == rest;
  }

  lemma AnswerInRadio(s: State, h: History) returns (actions: seq<Action>)
    requires Inv(s, h) && s.pi.pending != SERIAL_ID_TO_IGNORE && !Doomed(s, h) && s.radio
    ensures Legal(s, actions) && Run(s, actions).pi.pending == SERIAL_ID_TO_IGNORE
    ensures forall a <- actions :: Own(a)
  {
    var rest, s2, h2 := Answer(s, h);
    actions := rest;
  }

  /** In every state a run can reach with a request unanswered and the link not doomed, the link
      can go on to answer it, in radio mode by itself. */
  lemma CanAlwaysAnswer(s: State, h: History) returns (actions: seq<Action>)
    requires Reached(s, h) && s.pi.pending != SERIAL_ID_TO_IGNORE && !Doomed(s, h)
    ensures Legal(s, actions) && Run(s, actions).pi.pending == SERIAL_ID_TO_IGNORE
    ensures forall a <- actions :: Own(a) || (a == SetRadio(true) && !s.radio)
  {
    ReachedInv(s, h);
    if s.radio {
      actions := AnswerInRadio(s, h);
    } else {
      RadioOn(s, h);
      RadioNote(s, h);
      RadioDoom(s, h);
      var rest := AnswerInRadio(Next(s, SetRadio(true)), h);
      Cons(s, h, SetRadio(true), rest);
      actions := [SetRadio(true)] + rest;
    }
  }

  /** A request can be answered if and only if the link is not doomed: from there no run whatsoever
      answers it. */
  lemma AnswerableExactly(s: State, h: History)
    requires Reached(s, h) && s.pi.pending != SERIAL_ID_TO_IGNORE
    ensures (exists actions: seq<Action> :: Legal(s, actions) && Run(s, actions).pi.pending == SERIAL_ID_TO_IGNORE)
            <==> !Doomed(s, h)
  {
    ReachedInv(s, h);
    if Doomed(s, h) {
      forall actions: seq<Action> | Legal(s, actions)
        ensures Run(s, actions).pi.pending != SERIAL_ID_TO_IGNORE
      {
        DoomedForever(s, h, actions);
      }
    } else {
      var actions := CanAlwaysAnswer(s, h);
    }
  }

  // ----- a missed rise made good -----

  /** No AVR step that writes. */
  predicate NoWrites(actions: seq<Action>) {
    forall a <- actions :: !a.AvrReleases? && !a.AvrSends?
  }

  predicate LongTransfer(s: State, missed: bool) {
    missed ==> s.pi.pc.Transfer? && |s.pi.pc.out| > |s.avr.write|
  }

  lemma LongStep(s: State, h: History, action: Action)
    requires Inv(s, h) && Enabled(s, action) && !action.AvrReleases? && !action.AvrSends?
    requires LongTransfer(s, h.missed)
    ensures LongTransfer(Next(s, action), Note(s, h, action).missed)
  {
    if h.missed {
      match action
      case ByteExchange => ExchangeEffect(s, h);
      case AvrReads(answered) =>
        ReadEffect(s, h, answered);
        QuietMissed(s, h, action);
      case _ => QuietMissed(s, h, action);
    }
  }

  /** A transfer longer than what write_buf holds lowers the line and makes a missed rise good, in
      whatever order the other steps come, as long as the AVR writes nothing meanwhile. */
  lemma {:induction false} LongTransferHeals(s: State, h: History, actions: seq<Action>)
    requires Inv(s, h) && LongTransfer(s, h.missed) && Legal(s, actions) && NoWrites(actions)
    ensures !Transferring(Run(s, actions).pi) ==> !RunNotes(s, h, actions).missed
    decreases |actions|
  {
    if actions != [] {
      assert actions[0] in actions && forall a <- actions[1..] :: a in actions;
      StepKeeps(s, h, actions[0]);
      LongStep(s, h, actions[0]);
      LongTransferHeals(Next(s, actions[0]), Note(s, h, actions[0]), actions[1..]);
    }
  }

  // ----- the start of the program -----

  /** The program's own start: edges are asked for when the line is up already. */
  predicate MissedStart(s: State) {
    Initial(s) && s.wire == []
  }

  /** With nothing to send, three moves of the thread put it to sleep on a raised line, with
      VERSION unparsed and nothing to wake it. */
  lemma SleepsOnVersion(s: State)
    requires MissedStart(s)
    ensures var actions := [PiMoves, PiMoves, PiMoves];
            && Legal(s, actions)
            && var s1, h1 := Run(s, actions), RunNotes(s, StartHistory(s), actions);
               && s1.pi.pc == Asleep(false) && s1.avr.irq && s1.wire == [] && h1.missed
               && h1.written != h1.received
  {
    var h := StartHistory(s);
    var s1 := Next(s, PiMoves);
    var s2 := Next(s1, PiMoves);
    var s3 := Next(s2, PiMoves);
    SingleRun(s2, h, PiMoves);
    assert [PiMoves, PiMoves, PiMoves][1..] == [PiMoves, PiMoves];
    assert [PiMoves, PiMoves][1..] == [PiMoves];
  }

  /** The state in which the first message has been taken and its transfer begins. */
  function FirstSent(s: State, m: Msg): State {
    s.(pi := s.pi.(pc := Transfer(Wire(m), [], false), pending := m.serial))
  }

  /** The thread finds the message: Top, Poll, Decide, Send. */
  lemma FirstStates(s: State, m: Msg)
    requires MissedStart(s) && Sendable(m) && m.id != MSG_ID_IDLE
    ensures var s1 := Next(s, PushTo(m));
            && s1 == s.(pi := s.pi.(toQueue := [m]))
            && var s2 := Next(s1, PiMoves);
               && s2 == s.(pi := s.pi.(toQueue := [m], pc := Poll))
               && var s3 := Next(s2, PiMoves);
                  && s3 == s.(pi := s.pi.(toQueue := [m], pc := Decide))
                  && var s4 := Next(s3, PiMoves);
                     s4 == s.(pi := s.pi.(toQueue := [m], pc := Send)) && Next(s4, PiMoves) == FirstSent(s, m)
  {
  }

  lemma FirstMissed(s: State, h: History, m: Msg)
    requires MissedStart(s) && h.missed && Sendable(m) && m.id != MSG_ID_IDLE
    ensures var s1, h1 := Next(s, PushTo(m)), Note(s, h, PushTo(m));
            && h1.missed && PiReady(s1.pi)
            && var s2, h2 := Next(s1, PiMoves), Note(s1, h1, PiMoves);
               && h2.missed && PiReady(s2.pi)
               && var s3, h3 := Next(s2, PiMoves), Note(s2, h2, PiMoves);
                  && h3.missed && PiReady(s3.pi)
                  && var s4, h4 := Next(s3, PiMoves), Note(s3, h3, PiMoves);
                     h4.missed && PiReady(s4.pi) && Note(s4, h4, PiMoves).missed
  {
    FirstStates(s, m);
    var s1, h1 := Next(s, PushTo(m)), Note(s, h, PushTo(m));
    QuietMissed(s, h, PushTo(m));
    QuietMissed(s1, h1, PiMoves);
    var s2, h2 := Next(s1, PiMoves), Note(s1, h1, PiMoves);
    QuietMissed(s2, h2, PiMoves);
    var s3, h3 := Next(s2, PiMoves), Note(s2, h2, PiMoves);
    QuietMissed(s3, h3, PiMoves);
    QuietMissed(Next(s3, PiMoves), Note(s3, h3, PiMoves), PiMoves);
  }

  function FirstActions(m: Msg): seq<Action> {
    [PushTo(m)] + ([PiMoves] + ([PiMoves] + ([PiMoves] + [PiMoves])))
  }

  lemma FirstSteps(s: State, m: Msg)
    requires MissedStart(s) && Sendable(m) && m.id != MSG_ID_IDLE
    ensures Legal(s, FirstActions(m)) && Run(s, FirstActions(m)) == FirstSent(s, m)
    ensures RunNotes(s, StartHistory(s), FirstActions(m)).missed
  {
    var h := StartHistory(s);
    var s1, h1 := Next(s, PushTo(m)), Note(s, h, PushTo(m));
    var s2, h2 := Next(s1, PiMoves), Note(s1, h1, PiMoves);
    var s3, h3 := Next(s2, PiMoves), Note(s2, h2, PiMoves);
    var s4, h4 := Next(s3, PiMoves), Note(s3, h3, PiMoves);
    FirstStates(s, m);
    SingleRun(s4, h4, PiMoves);
    Cons(s3, h3, PiMoves, [PiMoves]);
    Cons(s2, h2, PiMoves, [PiMoves] + [PiMoves]);
    Cons(s1, h1, PiMoves, [PiMoves] + ([PiMoves] + [PiMoves]));
    Cons(s, h, PushTo(m), [PiMoves] + ([PiMoves] + ([PiMoves] + [PiMoves])));
    FirstMissed(s, h, m);
  }

  /** The transfer of the first message is longer than VERSION if its payload has two bytes. */
  lemma FirstIsDoomed(s: State, m: Msg, h: History)
    requires MissedStart(s) && Sendable(m) && m.serial != SERIAL_ID_TO_IGNORE && h.missed
    ensures Doomed(FirstSent(s, m), h) <==> |m.payload| < 2
    ensures LongTransfer(FirstSent(s, m), true) <==> |m.payload| >= 2
  {
    var s1 := FirstSent(s, m);
    WireHead(m);
    WireHead(VERSION);
    if |m.payload| < 2 {
      VersionUnfinished(s.avr.spdr, |Wire(m)|);
      assert Incoming(s1.pi) + ([s.avr.spdr] + Wire(VERSION))[..|Wire(m)|] == ([s.avr.spdr] + Wire(VERSION))[..|Wire(m)|];
    }
  }

  /** From the program's own start the first message decides: if its payload has two bytes, as that
      of SYNC_CLOCK, or more, the link can answer it; otherwise no run whatsoever does. */
  lemma FirstMessageDecides(s: State, m: Msg)
    requires MissedStart(s) && Sendable(m) && m.serial != SERIAL_ID_TO_IGNORE
    ensures Legal(s, FirstActions(m)) && Run(s, FirstActions(m)) == FirstSent(s, m)
    ensures (exists actions: seq<Action> ::
               Legal(FirstSent(s, m), actions) && Run(FirstSent(s, m), actions).pi.pending == SERIAL_ID_TO_IGNORE)
            <==> |m.payload| >= 2
  {
    FirstSteps(s, m);
    var s1, h1 := FirstSent(s, m), RunNotes(s, StartHistory(s), FirstActions(m));
    assert Reached(s1, h1);
    FirstIsDoomed(s, m, h1);
    AnswerableExactly(s1, h1);
  }

  lemma VersionUnfinished(spdr: byte, k: nat)
    requires spdr != EYE_CATCH && 1 <= k <= 5
    ensures Scan(([spdr] + Wire(VERSION))[..k]) == []
  {
    WireHead(VERSION);
    var all := ([spdr] + Wire(VERSION))[..k];
    assert all[1..] == Wire(VERSION)[..k - 1];
  }

  // ----- when the Pi polls -----

  /** The thread knows of no edge, and has nothing it may send. */
  predicate Dormant(s: State) {
    Quiet(s.pi.pc) && (s.pi.pending != SERIAL_ID_TO_IGNORE || s.pi.toQueue == [])
  }

  lemma DormantStays(s: State)
    requires ThreadInv(s, true) && Dormant(s) && PiReady(s.pi)
    ensures Dormant(Next(s, PiMoves))
  {
  }

  lemma {:induction false} DormantForever(s: State, h: History, actions: seq<Action>)
    requires Inv(s, h) && h.missed && Dormant(s) && Legal(s, actions)
    requires forall a <- actions :: a.PiMoves? || a.Deliver?
    ensures !Transferring(Run(s, actions).pi)
    decreases |actions|
  {
    if actions != [] {
      assert actions[0] in actions && forall a <- actions[1..] :: a in actions;
      StepKeeps(s, h, actions[0]);
      QuietMissed(s, h, actions[0]);
      DormantStays(s);
      DormantForever(Next(s, actions[0]), Note(s, h, actions[0]), actions[1..]);
    }
  }

  /** Moves to the transfer of a message that may be sent. */
  function ToSend(pc: Pc): nat {
    match pc
    case Send => 1
    case Decide => 2
    case Poll => 3
    case Top => 4
    case _ => 5
  }

  lemma SendNearer(s: State)
    requires ThreadInv(s, true) && Quiet(s.pi.pc) && !Dormant(s)
    ensures PiReady(s.pi)
    ensures var s1 := Next(s, PiMoves);
            Transferring(s1.pi) || (Quiet(s1.pi.pc) && !Dormant(s1) && ToSend(s1.pi.pc) < ToSend(s.pi.pc))
  {
  }

  /** A thread that has missed the rise, may send, and is `n` moves from doing so. */
  predicate Sending(s: State, h: History, n: nat) {
    h.missed && Quiet(s.pi.pc) && !Dormant(s) && ToSend(s.pi.pc) <= n
  }

  lemma SendOnce(s: State, h: History, n: nat) returns (moves: seq<Action>, s1: State, h1: History)
    requires Inv(s, h) && Sending(s, h, n)
    ensures n > 0 && Path(s, h, moves, s1, h1) && Inv(s1, h1) && (forall a <- moves :: a.PiMoves?)
    ensures Transferring(s1.pi) || Sending(s1, h1, n - 1)
  {
    SendNearer(s);
    QuietMissed(s, h, PiMoves);
    s1, h1 := PathStep(s, h, PiMoves);
    moves := [PiMoves];
  }

  lemma {:induction false} SendPath(s: State, h: History, n: nat)
    returns (actions: seq<Action>, s2: State, h2: History)
    requires Inv(s, h) && Sending(s, h, n)
    ensures Path(s, h, actions, s2, h2) && (forall a <- actions :: a.PiMoves? || a.Deliver?)
    ensures Transferring(s2.pi)
    decreases n
  {
    var first, s1, h1 := SendOnce(s, h, n);
    actions, s2, h2 := first, s1, h1;
    if !Transferring(s1.pi) {
      var rest;
      rest, s2, h2 := SendPath(s1, h1, n - 1);
      PathJoin(s, h, first, s1, h1, rest, s2, h2);
      actions := first + rest;
    }
  }

  /** The thread's own moves and the delivery of edges lead to a transfer. */
  predicate Polls(s: State, actions: seq<Action>) {
    Legal(s, actions) && (forall a <- actions :: a.PiMoves? || a.Deliver?) && Transferring(Run(s, actions).pi)
  }

  lemma PathToTransfer(s: State, h: History) returns (actions: seq<Action>)
    requires Inv(s, h) && s.avr.irq && Quiet(s.pi.pc) && (!h.missed || !Dormant(s))
    ensures Polls(s, actions)
  {
    if h.missed {
      var rest, s2, h2 := SendPath(s, h, ToSend(s.pi.pc));
      actions := rest;
    } else {
      var rest, s2, h2 := RaisedLineIsPolled(s, h);
      actions := rest;
    }
  }

  /** With IRQ high and the thread between transfers, its own moves and the delivery of edges lead
      to a transfer if and only if the rise was not missed or the thread may send a message. */
  lemma PolledExactly(s: State, h: History)
    requires Reached(s, h) && s.avr.irq && Quiet(s.pi.pc)
    ensures (exists actions: seq<Action> :: Polls(s, actions))
            <==> !h.missed || (s.pi.pending == SERIAL_ID_TO_IGNORE && s.pi.toQueue != [])
  {
    ReachedInv(s, h);
    if !h.missed || !Dormant(s) {
      var actions := PathToTransfer(s, h);
      assert Polls(s, actions);
    } else {
      forall actions: seq<Action> | Polls(s, actions)
        ensures false
      {
        DormantForever(s, h, actions);
      }
    }
  }

  // ----- back-pressure outside radio mode -----

  /** Outside radio mode a reply is held back by what waits to be displayed. */
  predicate Walled(s: State) {
    !s.radio && s.avr.slot != [] && Space(s.avr.shift) < ENOUGH_SPACE
  }

  lemma WalledAvr(s: State, h: History, action: Action)
    requires Inv(s, h) && Walled(s) && Enabled(s, action)
    requires action != SetRadio(true) && action != StartDrain
    ensures Walled(Next(s, action)) && Next(s, action).avr.slot == s.avr.slot
  {
    match action
    case AvrReads(answered) =>
      ReadEffect(s, h, answered);
      ReadFacts(s, h);
    case _ =>
  }

  /** Nothing but radio mode or the start of draining lets it go: until then the Pi waits. */
  lemma WalledStays(s: State, h: History, action: Action)
    requires Inv(s, h) && Walled(s) && Enabled(s, action)
    requires action != SetRadio(true) && action != StartDrain
    ensures Walled(Next(s, action))
    ensures s.pi.pending != SERIAL_ID_TO_IGNORE && Next(s, action).pi.pending == s.pi.pending
  {
    StepKeeps(s, h, action);
    WalledAvr(s, h, action);
    SlotHasToken(s, h);
    SlotHasToken(Next(s, action), Note(s, h, action));
  }

  lemma SlotHasToken(s: State, h: History)
    requires TokenInv(s, h) && s.avr.slot != []
    ensures BodySerial(SlotBody(s.avr.slot)) == [s.pi.pending] && s.pi.pending != SERIAL_ID_TO_IGNORE
  {
    OneToken(Serials(h.reqs), s.avr.slot, BodySerials(Bodies(h.items)), s.pi.pending);
  }

  lemma {:induction false} WalledForever(s: State, h: History, actions: seq<Action>)
    requires Inv(s, h) && Walled(s) && Legal(s, actions)
    requires SetRadio(true) !in actions && StartDrain !in actions
    ensures Run(s, actions).pi.pending == s.pi.pending != SERIAL_ID_TO_IGNORE
    decreases |actions|
  {
    SlotHasToken(s, h);
    if actions != [] {
      assert actions[0] in actions && forall a <- actions[1..] :: a in actions;
      StepKeeps(s, h, actions[0]);
      WalledStays(s, h, actions[0]);
      WalledForever(Next(s, actions[0]), Note(s, h, actions[0]), actions[1..]);
    }
  }
}
