/** The I2C master over every run: requests submitted, interrupts and twi_try calls in any
    order.  Each accepted request is carried out once, in order, and answered once. */
module TwiHistory {
  import opened Constants
  import opened RingBuffer
  import opened Twi
  import opened TwiRuns

  datatype Event = Submit(r: Request) | Tick(regs: Registers) | Call

  /** What happened so far: the requests accepted, and of each one started the bus operations
      and the bytes the slave sent; of each one finished, the callback. */
  datatype Log = Log(accepted: seq<Request>, wire: seq<seq<Bus>>, received: seq<seq<byte>>, reports: seq<Report>)

  function NoteTick(log: Log, e: Engine, regs: Registers, op: Option<Bus>): Log {
    if op.None? || log.wire == [] || log.received == [] then log
    else
      var w := |log.wire| - 1;
      var d := |log.received| - 1;
      log.(wire := log.wire[w := log.wire[w] + [op.value]],
           received :=
             if e.mode == READ_VALUE && Check(regs.twsr, TW_MR_DATA_ACK)
             then log.received[d := log.received[d] + [regs.twdr]] else log.received)
  }

  function Advance(address: byte, e: Engine, log: Log, ev: Event): (Engine, Log)
    requires Sound(e)
  {
    match ev
    case Submit(r) =>
      (Enqueue(e, r), if Accepts(e, r) then log.(accepted := log.accepted + [r]) else log)
    case Tick(regs) =>
      var (e1, op) := Interrupt(e, address, regs.twsr, regs.twdr);
      (e1, NoteTick(log, e, regs, op))
    case Call =>
      var (e1, report) := Try(e);
      (e1,
       if report.Some? then log.(reports := log.reports + [report.value])
       else if e1 != e then log.(wire := log.wire + [[Start]], received := log.received + [[]])
       else log)
  }

  /** What callers may submit: well-formed requests that do not top the queue. */
  predicate Legal(e: Engine, ev: Event) {
    ev.Submit? && Accepts(e, ev.r) ==> GoodRequest(ev.r) && !Tops(QUEUE_SIZE, e.queue, |Pack(ev.r)|)
  }

  // ----- what has to hold -----

  function Packs(rs: seq<Request>): seq<byte>
    decreases |rs|
  {
    if rs == [] then [] else Pack(rs[0]) + Packs(rs[1..])
  }

  /** A transaction that has passed `k` checks and stopped. */
  predicate Ended(r: Request, address: byte, status: Status, data: seq<byte>, wire: seq<Bus>,
                  received: seq<byte>, k: nat)
  {
    && k <= |FormatOf(r, address)| == Length(r.write, r.len)
    && wire == [Start] + Driven(FormatOf(r, address), 0, k)
    && status == (if k == Length(r.write, r.len) then Success else ErrorAt(r.write, k))
    && (r.write ==> received == [])
    && (!r.write ==> |received| == IndexAt(false, k) <= |data| && data[..|received|] == received)
  }

  /** The callback of a request says what the wire did. */
  ghost predicate Answers(r: Request, address: byte, report: Report, wire: seq<Bus>, received: seq<byte>) {
    && report.write == r.write && report.id == r.id && report.tag == r.tag && report.len == r.len
    && |report.data| == (if r.write then 0 else r.len)
    && exists k: nat :: Ended(r, address, report.status, report.data, wire, received, k)
  }

  /** The current request, as far as it has got. */
  ghost predicate Underway(r: Request, address: byte, e: Engine, wire: seq<Bus>, received: seq<byte>)
    requires Sound(e)
  {
    && Carries(e, r)
    && if e.mode == IDLE then
         exists k: nat :: Ended(r, address, e.status, e.data[..e.max], wire, received, k)
       else
         Moving(r, address, e, wire, received, |wire| - 1)
  }

  predicate Moving(r: Request, address: byte, e: Engine, wire: seq<Bus>, received: seq<byte>, j: int)
    requires Sound(e)
  {
    && 0 <= j <= |FormatOf(r, address)| && AtPhase(e, r.write, j)
    && wire == [Start] + FormatOf(r, address)[..j]
    && received == if r.write then [] else e.data[..e.index]
  }

  ghost predicate Inv(address: byte, e: Engine, log: Log) {
    && Sound(e) && Intact(QUEUE_SIZE, e.queue)
    && |log.received| == |log.wire|
    && |log.wire| == |log.reports| + (if e.action == ACTION_IDLE then 0 else 1) <= |log.accepted|
    && (forall i :: 0 <= i < |log.accepted| ==> GoodRequest(log.accepted[i]))
    && e.queue.contents == Packs(log.accepted[|log.wire|..])
    && (e.action == ACTION_IDLE ==> e.mode == IDLE && e.status == Success)
    && (e.action != ACTION_IDLE ==>
          var i := |log.reports|; Underway(log.accepted[i], address, e, log.wire[i], log.received[i]))
    && (forall i :: 0 <= i < |log.reports| ==>
          Answers(log.accepted[i], address, log.reports[i], log.wire[i], log.received[i]))
  }

  // ----- preservation -----

  lemma {:induction false} PacksSnoc(rs: seq<Request>, r: Request)
    ensures Packs(rs + [r]) == Packs(rs) + Pack(r)
    decreases |rs|
  {
    if rs == [] {
      var none: seq<Request> := [];
      assert ([r])[1..] == none;
      assert none + [r] == [r];
    } else {
      assert (rs + [r])[1..] == rs[1..] + [r];
      PacksSnoc(rs[1..], r);
      assert Pack(rs[0]) + (Packs(rs[1..]) + Pack(r)) == Pack(rs[0]) + Packs(rs[1..]) + Pack(r);
    }
  }

  lemma SubmitKeeps(address: byte, e: Engine, log: Log, r: Request)
    requires Inv(address, e, log) && Legal(e, Submit(r))
    ensures Inv(address, Advance(address, e, log, Submit(r)).0, Advance(address, e, log, Submit(r)).1)
  {
    if Accepts(e, r) {
      EnqueuedWhole(e, r);
      var w := |log.wire|;
      PacksSnoc(log.accepted[w..], r);
      assert (log.accepted + [r])[w..] == log.accepted[w..] + [r];
    }
  }

  /** A failed check ends the current request. */
  lemma TickFails(r: Request, address: byte, e: Engine, regs: Registers, wire: seq<Bus>, received: seq<byte>, j: nat)
    requires Sound(e) && e.mode < IDLE && GoodRequest(r) && Carries(e, r)
    requires Moving(r, address, e, wire, received, j) && !Check(regs.twsr, MaskAt(r.write, j))
    ensures var (e1, op) := Interrupt(e, address, regs.twsr, regs.twdr);
            && op == Some(Stop) && Carries(e1, r) && e1.mode == IDLE
            && Ended(r, address, e1.status, e1.data[..e1.max], wire + [Stop], received, j)
  {
    PhaseStep(e, r.write, j, address, regs.twsr, regs.twdr);
    CarriesFormat(e, r, address);
    assert wire + [Stop] == [Start] + Driven(FormatOf(r, address), 0, j);
  }

  /** A check that passes takes the current request one step on, or ends it. */
  lemma TickPasses(r: Request, address: byte, e: Engine, regs: Registers, wire: seq<Bus>, received: seq<byte>, j: nat)
    requires Sound(e) && e.mode < IDLE && GoodRequest(r) && Carries(e, r)
    requires Moving(r, address, e, wire, received, j) && Check(regs.twsr, MaskAt(r.write, j))
    ensures var (e1, op) := Interrupt(e, address, regs.twsr, regs.twdr);
            && op.Some? && Carries(e1, r)
            && var wire1 := wire + [op.value];
               var received1 := if !r.write && j >= 5 then received + [regs.twdr] else received;
               if e1.mode == IDLE then Ended(r, address, e1.status, e1.data[..e1.max], wire1, received1, j + 1)
               else Moving(r, address, e1, wire1, received1, j + 1)
  {
    var (e1, op) := Interrupt(e, address, regs.twsr, regs.twdr);
    PhaseStep(e, r.write, j, address, regs.twsr, regs.twdr);
    CarriesFormat(e, r, address);
    var format := FormatOf(r, address);
    assert wire + [format[j]] == [Start] + format[..j + 1];
    if !r.write && j >= 5 {
      assert e1.data[..e1.index] == received + [regs.twdr];
    }
    if j + 1 == |format| {
      assert Driven(format, 0, j + 1) == format[..j + 1];
    }
  }

  /** One interrupt of the current request. */
  lemma TickMoves(r: Request, address: byte, e: Engine, regs: Registers, wire: seq<Bus>, received: seq<byte>)
    requires Sound(e) && e.mode < IDLE && GoodRequest(r) && Underway(r, address, e, wire, received)
    ensures var (e1, op) := Interrupt(e, address, regs.twsr, regs.twdr);
            && op.Some? && e1.queue == e.queue && e1.action == e.action
            && Underway(r, address, e1, wire + [op.value],
                        if e.mode == READ_VALUE && Check(regs.twsr, TW_MR_DATA_ACK)
                        then received + [regs.twdr] else received)
  {
    var j := |wire| - 1;
    if Check(regs.twsr, MaskAt(r.write, j)) {
      TickPasses(r, address, e, regs, wire, received, j);
    } else {
      TickFails(r, address, e, regs, wire, received, j);
    }
  }

  lemma TickKeeps(address: byte, e: Engine, log: Log, regs: Registers)
    requires Inv(address, e, log)
    ensures Inv(address, Advance(address, e, log, Tick(regs)).0, Advance(address, e, log, Tick(regs)).1)
  {
    if e.mode < IDLE {
      var i := |log.reports|;
      TickMoves(log.accepted[i], address, e, regs, log.wire[i], log.received[i]);
    }
  }

  lemma BeginMoves(address: byte, e: Engine, r: Request, rest: seq<byte>)
    requires Sound(e) && Intact(QUEUE_SIZE, e.queue) && e.status == Success
    requires GoodRequest(r) && e.queue.contents == Pack(r) + rest
    ensures var e1 := Begin(ActionSet(e));
            && Sound(e1) && Intact(QUEUE_SIZE, e1.queue) && e1.queue.contents == rest
            && e1.mode != IDLE && e1.action != ACTION_IDLE
            && Underway(r, address, e1, [Start], [])
  {
    UnpackPack(e, r, rest);
    assert [Start] == [Start] + FormatOf(r, address)[..0];
    assert Moving(r, address, Begin(ActionSet(e)), [Start], [], 0);
  }

  lemma ReportAnswers(address: byte, e: Engine, r: Request, wire: seq<Bus>, received: seq<byte>)
    requires Sound(e) && Underway(r, address, e, wire, received) && e.mode == IDLE
    ensures e.action != ACTION_IDLE
    ensures Answers(r, address, Try(e).1.value, wire, received)
  {
    var k: nat :| Ended(r, address, e.status, e.data[..e.max], wire, received, k);
    assert Ended(r, address, e.status, Try(e).1.value.data, wire, received, k);
  }

  lemma CallReports(address: byte, e: Engine, log: Log)
    requires Inv(address, e, log) && e.mode == IDLE && e.action != ACTION_IDLE
    ensures Inv(address, Advance(address, e, log, Call).0, Advance(address, e, log, Call).1)
  {
    var i := |log.reports|;
    ReportAnswers(address, e, log.accepted[i], log.wire[i], log.received[i]);
  }

  lemma CallBegins(address: byte, e: Engine, log: Log)
    requires Inv(address, e, log) && e.mode == IDLE && e.action == ACTION_IDLE && e.queue.contents != []
    ensures Inv(address, Advance(address, e, log, Call).0, Advance(address, e, log, Call).1)
  {
    var waiting := log.accepted[|log.wire|..];
    BeginMoves(address, e, waiting[0], Packs(waiting[1..]));
    assert waiting[1..] == log.accepted[|log.wire| + 1..];
  }

  lemma CallKeeps(address: byte, e: Engine, log: Log)
    requires Inv(address, e, log)
    ensures Inv(address, Advance(address, e, log, Call).0, Advance(address, e, log, Call).1)
  {
    if e.mode == IDLE && e.action != ACTION_IDLE {
      CallReports(address, e, log);
    } else if e.mode == IDLE && e.queue.contents != [] {
      CallBegins(address, e, log);
    }
  }

  // ----- every run -----

  lemma AdvanceKeeps(address: byte, e: Engine, log: Log, ev: Event)
    requires Inv(address, e, log) && Legal(e, ev)
    ensures Inv(address, Advance(address, e, log, ev).0, Advance(address, e, log, ev).1)
  {
    match ev
    case Submit(r) => SubmitKeeps(address, e, log, r);
    case Tick(regs) => TickKeeps(address, e, log, regs);
    case Call => CallKeeps(address, e, log);
  }

  /** The events of `events` are legal one after the other and lead to the second state. */
  ghost predicate Leads(address: byte, e: Engine, log: Log, events: seq<Event>, e2: Engine, log2: Log)
    requires Inv(address, e, log)
    decreases |events|
  {
    if events == [] then e == e2 && log == log2
    else
      && Legal(e, events[0])
      && (AdvanceKeeps(address, e, log, events[0]);
          var (e1, log1) := Advance(address, e, log, events[0]);
          Leads(address, e1, log1, events[1..], e2, log2))
  }

  lemma {:induction false} RunKeeps(address: byte, e: Engine, log: Log, events: seq<Event>, e2: Engine, log2: Log)
    requires Inv(address, e, log) && Leads(address, e, log, events, e2, log2)
    ensures Inv(address, e2, log2)
    decreases |events|
  {
    if events != [] {
      AdvanceKeeps(address, e, log, events[0]);
      var (e1, log1) := Advance(address, e, log, events[0]);
      RunKeeps(address, e1, log1, events[1..], e2, log2);
    }
  }

  const NOTHING := Log([], [], [], [])

  lemma InitialInv(address: byte)
    ensures Inv(address, Init(), NOTHING)
  {
  }

  /** The engine and its log after a run from twi_init. */
  ghost predicate Reached(address: byte, e: Engine, log: Log) {
    InitialInv(address);
    exists events :: Leads(address, Init(), NOTHING, events, e, log)
  }

  lemma ReachedInv(address: byte, e: Engine, log: Log)
    requires Reached(address, e, log)
    ensures Inv(address, e, log)
  {
    InitialInv(address);
    var events :| Leads(address, Init(), NOTHING, events, e, log);
    RunKeeps(address, Init(), NOTHING, events, e, log);
  }

  /** In every run the callbacks answer the accepted requests one for one, in order, each with
      its own tag and with the status and data of what the bus saw for it; and when the engine
      has nothing left, all of them have been answered. */
  lemma ExactlyOnce(address: byte, e: Engine, log: Log)
    requires Reached(address, e, log)
    ensures |log.reports| <= |log.wire| <= |log.reports| + 1 && |log.wire| <= |log.accepted|
    ensures |log.received| == |log.wire|
    ensures forall i :: 0 <= i < |log.reports| ==>
              Answers(log.accepted[i], address, log.reports[i], log.wire[i], log.received[i])
    ensures e.action == ACTION_IDLE && e.queue.contents == [] <==> |log.reports| == |log.accepted|
  {
    ReachedInv(address, e, log);
    var waiting := log.accepted[|log.wire|..];
    if waiting != [] {
      assert Packs(waiting) == Pack(waiting[0]) + Packs(waiting[1..]);
    }
  }

  /** SUCCESS means the bus saw the whole wire format, and is what a read reports exactly when
      every byte came in, which it then hands over; any other status names the phase at which
      the transaction stopped. */
  lemma SuccessIsWhole(r: Request, address: byte, report: Report, wire: seq<Bus>, received: seq<byte>)
    requires GoodRequest(r) && Answers(r, address, report, wire, received)
    ensures report.status == Success ==> wire == [Start] + FormatOf(r, address)
    ensures !r.write ==> (report.status == Success <==> |received| == r.len)
    ensures !r.write && report.status == Success ==> report.data == received
    ensures report.status != Success ==>
              var k := |wire| - 2;
              && 0 <= k < |FormatOf(r, address)|
              && wire == [Start] + FormatOf(r, address)[..k] + [Stop]
              && report.status == ErrorAt(r.write, k)
  {
    var k: nat :| Ended(r, address, report.status, report.data, wire, received, k);
    var n := Length(r.write, r.len);
    var format := FormatOf(r, address);
    assert k == n ==> Driven(format, 0, n) == format;
  }

  // ----- addresses -----

  /** The bus operations of a transaction address the slave for writing at first and for reading
      after a repeated START, and name the register in between; it may stop at any point. */
  predicate Addressed(r: Request, address: byte, wire: seq<Bus>)
    requires address < 128
  {
    && wire != [] && wire[0] == Start
    && (|wire| > 1 ==> wire[1] == Send(2 * address) || wire[1] == Stop)
    && (|wire| > 2 ==> wire[2] == Send(r.reg) || wire[2] == Stop)
    && (forall j :: 0 <= j < |wire| && wire[j] == Restart ==> !r.write && j == 3)
    && (|wire| > 4 && wire[3] == Restart ==> wire[4] == Send(2 * address + 1) || wire[4] == Stop)
    && (forall j :: 0 <= j < |wire| && wire[j] == Receive ==> j > 4 && wire[4] == Send(2 * address + 1))
  }

  /** A wire format cut short, with or without STOP. */
  lemma CutAddressed(r: Request, address: byte, wire: seq<Bus>, k: nat)
    requires address < 128 && GoodRequest(r) && k <= |FormatOf(r, address)|
    requires wire == [Start] + FormatOf(r, address)[..k] || wire == [Start] + FormatOf(r, address)[..k] + [Stop]
    ensures Addressed(r, address, wire)
  {
    OnTheWire(r, address);
    var w := FormatOf(r, address);
    assert forall j :: 0 < j <= k ==> wire[j] == w[j - 1];
  }

  /** In every run each transaction addresses the slave with a 0 bit first, and with a 1 bit after
      a repeated START, which only reads have; bytes are received only after that. */
  lemma OnTheBus(address: byte, e: Engine, log: Log, i: nat)
    requires Reached(address, e, log) && address < 128 && i < |log.wire|
    ensures i < |log.accepted| && Addressed(log.accepted[i], address, log.wire[i])
  {
    ReachedInv(address, e, log);
    var r, wire := log.accepted[i], log.wire[i];
    var format := FormatOf(r, address);
    if i == |log.reports| && e.mode != IDLE {
      CutAddressed(r, address, wire, |wire| - 1);
    } else {
      var status := if i == |log.reports| then e.status else log.reports[i].status;
      var data := if i == |log.reports| then e.data[..e.max] else log.reports[i].data;
      var k: nat :| Ended(r, address, status, data, wire, log.received[i], k);
      assert wire == [Start] + format[..k] || wire == [Start] + format[..k] + [Stop];
      CutAddressed(r, address, wire, k);
    }
  }

  // ----- progress -----

  function Cost(rs: seq<Request>): nat
    decreases |rs|
  {
    if rs == [] then 0 else Length(rs[0].write, rs[0].len) + 2 + Cost(rs[1..])
  }

  /** Interrupts and calls that the requests accepted so far can still take. */
  function Work(e: Engine, log: Log): int
    requires |log.wire| <= |log.accepted|
  {
    Cost(log.accepted[|log.wire|..])
    + (if e.action == ACTION_IDLE || log.wire == [] then 0
       else if e.mode == IDLE then 1
       else 2 + Length(e.action == ACTION_WRITE, e.max) - |log.wire[|log.wire| - 1]|)
  }

  /** Starting the next request turns what it costs into what it still takes. */
  lemma BeginShrinks(e: Engine, log: Log, e1: Engine, log1: Log)
    requires |log.wire| < |log.accepted| && log1 == log.(wire := log.wire + [[Start]], received := log.received + [[]])
    requires e.action == ACTION_IDLE && e1.action != ACTION_IDLE && e1.mode != IDLE
    requires var r := log.accepted[|log.wire|]; e1.max == r.len && (e1.action == ACTION_WRITE <==> r.write)
    ensures 0 <= Work(e1, log1) < Work(e, log)
  {
    var waiting := log.accepted[|log.wire|..];
    assert waiting[1..] == log.accepted[|log.wire| + 1..];
  }

  lemma CallProgress(address: byte, e: Engine, log: Log)
    requires Inv(address, e, log) && |log.reports| < |log.accepted| && e.mode == IDLE
    ensures var (e1, log1) := Advance(address, e, log, Call);
            |log1.wire| <= |log1.accepted| && 0 <= Work(e1, log1) < Work(e, log)
  {
    if e.action == ACTION_IDLE {
      var waiting := log.accepted[|log.wire|..];
      BeginMoves(address, e, waiting[0], Packs(waiting[1..]));
      var (e1, log1) := Advance(address, e, log, Call);
      BeginShrinks(e, log, e1, log1);
    }
  }

  /** An interrupt adds one bus operation to the current request. */
  lemma NoteGrows(log: Log, e: Engine, regs: Registers, op: Bus)
    requires log.wire != [] && |log.received| == |log.wire|
    ensures var log1 := NoteTick(log, e, regs, Some(op));
            && log1.accepted == log.accepted && |log1.wire| == |log.wire|
            && |log1.wire[|log.wire| - 1]| == |log.wire[|log.wire| - 1]| + 1
  {
  }

  /** An operation on the wire is work done, as long as the transaction has not run past its end. */
  lemma WorkShrinks(e: Engine, log: Log, e1: Engine, log1: Log)
    requires log.wire != [] && |log1.wire| == |log.wire| <= |log.accepted| && log1.accepted == log.accepted
    requires e.mode < IDLE && e.action != ACTION_IDLE && e1.action == e.action && e1.max == e.max
    requires |log1.wire[|log.wire| - 1]| == |log.wire[|log.wire| - 1]| + 1
    requires |log.wire[|log.wire| - 1]| <= Length(e.action == ACTION_WRITE, e.max)
    ensures 0 <= Work(e1, log1) < Work(e, log)
  {
  }

  lemma TickProgress(address: byte, e: Engine, log: Log, regs: Registers)
    requires Inv(address, e, log) && e.mode < IDLE
    ensures var (e1, log1) := Advance(address, e, log, Tick(regs));
            |log1.wire| <= |log1.accepted| && 0 <= Work(e1, log1) < Work(e, log)
  {
    var i := |log.reports|;
    var r := log.accepted[i];
    var (e1, op) := Interrupt(e, address, regs.twsr, regs.twdr);
    TickMoves(r, address, e, regs, log.wire[i], log.received[i]);
    NoteGrows(log, e, regs, op.value);
    WorkShrinks(e, log, e1, NoteTick(log, e, regs, op));
  }

  /** While a request is unanswered the next step that matters, an interrupt when the engine is
      busy and a call when it is idle, brings the answers strictly nearer. */
  lemma EveryRequestEnds(address: byte, e: Engine, log: Log, regs: Registers)
    requires Reached(address, e, log) && |log.reports| < |log.accepted|
    ensures Sound(e) && |log.wire| <= |log.accepted|
    ensures var (e1, log1) := Advance(address, e, log, if e.mode == IDLE then Call else Tick(regs));
            |log1.wire| <= |log1.accepted| && 0 <= Work(e1, log1) < Work(e, log)
  {
    ReachedInv(address, e, log);
    if e.mode == IDLE {
      CallProgress(address, e, log);
    } else {
      TickProgress(address, e, log, regs);
    }
  }
}
