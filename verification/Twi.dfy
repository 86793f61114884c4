/** The I2C master (src/avr/twi.c) as a value: packed requests in a byte queue, the interrupt
    state machine, and the callbacks.  The wire format is that of UM10204, section 3.1.10. */
module Twi {
  import opened Constants
  import opened RingBuffer

  const QUEUE_SIZE := 255
  const MAX_LEN := 128
  const OVERHEAD := 4
  const TWI_ID_SIZE := 1

  const WRITE_START := 0
  const WRITE_SLAVE := 1
  const WRITE_REG := 2
  const WRITE_VALUE := 3
  const READ_START := 4
  const READ_SLAVE := 5
  const READ_REG := 6
  const READ_RESTART := 7
  const READ_RESTART_SLAVE := 8
  const READ_VALUE := 9
  const IDLE := 10

  const ACTION_WRITE := 0
  const ACTION_READ := 1
  const ACTION_IDLE := 2

  datatype Status =
    | Success
    | WriteStartError
    | ReadStartError
    | ReadRestartError
    | WriteSlaveError
    | ReadSlaveError
    | ReadRestartSlaveError
    | WriteRegError
    | ReadRegError
    | WriteValueError
    | ReadValueError

  /** What the master asks the hardware to do next. */
  datatype Bus = Start | Restart | Send(b: byte) | Receive | Stop

  datatype Engine = Engine(
    mode: nat,
    status: Status,
    action: nat,
    tag: byte,
    id: byte,
    reg: byte,
    index: nat,
    max: nat,
    data: seq<byte>,
    queue: Fifo)

  datatype Request = Request(write: bool, id: byte, tag: byte, len: nat, reg: byte, data: seq<byte>)

  datatype Report = Report(write: bool, id: byte, tag: byte, status: Status, len: nat, data: seq<byte>)

  // ----- status register masks of the AVR's TWI unit -----

  const TW_START: bv8 := 0x08
  const TW_REP_START: bv8 := 0x10
  const TW_MT_SLA_ACK: bv8 := 0x18
  const TW_MT_DATA_ACK: bv8 := 0x28
  const TW_MR_SLA_ACK: bv8 := 0x40
  const TW_MR_DATA_ACK: bv8 := 0x50

  /** All the mask's bits are set in the status; other status bits are not looked at. */
  predicate Check(twsr: bv8, mask: bv8) {
    (twsr & 0xF8) & mask == mask
  }

  function SlaveAddress(address: byte, read: bool): byte {
    (address * 2) % 256 + if read then 1 else 0
  }

  predicate Sound(e: Engine) {
    |e.data| == MAX_LEN && e.max < MAX_LEN && e.index < MAX_LEN && e.mode <= IDLE
    && (e.mode < IDLE ==> e.index < e.max || e.index == 0)
  }

  function Halt(e: Engine, status: Status): (Engine, Option<Bus>) {
    (e.(mode := IDLE, status := status), Some(Stop))
  }

  /** The TWI interrupt: `twsr` and `twdr` are the registers it finds. */
  function Interrupt(e: Engine, address: byte, twsr: bv8, twdr: byte): (r: (Engine, Option<Bus>))
    requires Sound(e)
    ensures Sound(r.0)
  {
    var next := e.(mode := if e.mode < IDLE then e.mode + 1 else e.mode);
    if e.mode == WRITE_START then
      if !Check(twsr, TW_START) then Halt(next, WriteStartError)
      else (next, Some(Send(SlaveAddress(address, false))))
    else if e.mode == WRITE_SLAVE then
      if !Check(twsr, TW_MT_SLA_ACK) then Halt(next, WriteSlaveError)
      else (next, Some(Send(e.reg)))
    else if e.mode == WRITE_REG then
      if !Check(twsr, TW_MT_DATA_ACK) then Halt(next, WriteRegError)
      else (next, Some(Send(e.data[e.index])))
    else if e.mode == WRITE_VALUE then
      if !Check(twsr, TW_MT_DATA_ACK) then Halt(next, WriteValueError)
      else if e.index + 1 < e.max then
        (e.(index := e.index + 1), Some(Send(e.data[e.index + 1])))
      else Halt(e.(index := e.index + 1), e.status)
    else if e.mode == READ_START then
      if !Check(twsr, TW_START) then Halt(next, ReadStartError)
      else (next, Some(Send(SlaveAddress(address, false))))
    else if e.mode == READ_SLAVE then
      if !Check(twsr, TW_MT_SLA_ACK) then Halt(next, ReadSlaveError)
      else (next, Some(Send(e.reg)))
    else if e.mode == READ_REG then
      if !Check(twsr, TW_MT_DATA_ACK) then Halt(next, ReadRegError)
      else (next, Some(Restart))
    else if e.mode == READ_RESTART then
      if !Check(twsr, TW_REP_START) then Halt(next, ReadRestartError)
      else (next, Some(Send(SlaveAddress(address, true))))
    else if e.mode == READ_RESTART_SLAVE then
      if !Check(twsr, TW_MR_SLA_ACK) then Halt(next, ReadRestartSlaveError)
      else (next, Some(Receive))
    else if e.mode == READ_VALUE then
      if !Check(twsr, TW_MR_DATA_ACK) then Halt(next, ReadValueError)
      else
        var e1 := e.(data := e.data[e.index := twdr], index := e.index + 1);
        if e.index + 1 < e.max then (e1, Some(Receive)) else Halt(e1, e.status)
    else (e, None)
  }

  // ----- the request queue -----

  /** The length, shifted as a uint8_t, shares a byte with the action. */
  function OpByte(len: nat, write: bool): byte {
    (len * 2) % 256 + if write then ACTION_WRITE else ACTION_READ
  }

  /** The bytes of a request in the queue. */
  function Pack(r: Request): seq<byte> {
    [OpByte(r.len, r.write), r.id, r.tag, r.reg]
    + if r.write then r.data else []
  }

  predicate Accepts(e: Engine, r: Request) {
    r.id < TWI_ID_SIZE && 0 < r.len <= MAX_LEN
    && QUEUE_SIZE - |e.queue.contents| >= (if r.write then r.len + OVERHEAD else OVERHEAD)
  }

  function Enqueue(e: Engine, r: Request): Engine {
    if Accepts(e, r) then e.(queue := Filled(QUEUE_SIZE, e.queue, Pack(r))) else e
  }

  function Zeros(): (z: seq<byte>)
    ensures |z| == MAX_LEN
  {
    seq(MAX_LEN, _ => 0)
  }

  function ActionReset(e: Engine): Engine {
    e.(status := Success, action := ACTION_IDLE, tag := 0, reg := 0, data := Zeros(), index := 0, max := 0)
  }

  function Begin(e: Engine): Engine {
    e.(mode := if e.action == ACTION_WRITE then WRITE_START else READ_START)
  }

  /** The data array with `n` bytes from the queue, behind the four that every request starts with. */
  function Loaded(c: seq<byte>, data: seq<byte>, n: nat): (d: seq<byte>)
    requires OVERHEAD + n <= |c| && n <= |data|
    ensures |d| == |data| && (n == 0 ==> d == data)
  {
    c[OVERHEAD..OVERHEAD + n] + data[n..]
  }

  /** Takes the next request off the queue, as far as the queue's bytes go. */
  function ActionSet(e: Engine): Engine
    requires |e.data| == MAX_LEN
  {
    var c := e.queue.contents;
    if |c| < OVERHEAD then e.(queue := DrainedBy(QUEUE_SIZE, e.queue, |c|))
    else
      var max := c[0] / 2;
      var n := if c[0] % 2 != ACTION_WRITE then 0 else if max <= |c| - OVERHEAD then max else |c| - OVERHEAD;
      e.(action := c[0] % 2, index := 0, max := max, id := c[1], tag := c[2], reg := c[3],
         data := Loaded(c, e.data, n),
         queue := DrainedBy(QUEUE_SIZE, e.queue, OVERHEAD + n))
  }

  /** twi_try: report a finished action, or start the next one. */
  function Try(e: Engine): (Engine, Option<Report>)
    requires |e.data| == MAX_LEN && e.max < MAX_LEN
  {
    if e.mode != IDLE then (e, None)
    else if e.action != ACTION_IDLE then
      (ActionReset(e),
       Some(Report(e.action == ACTION_WRITE, e.id, e.tag, e.status, e.max,
                   if e.action == ACTION_WRITE then [] else e.data[..e.max])))
    else if e.queue.contents != [] then (Begin(ActionSet(e)), None)
    else (e, None)
  }

  function Init(): Engine {
    Engine(IDLE, Success, ACTION_IDLE, 0, TWI_ID_SIZE, 0, 0, 0, Zeros(), EMPTY)
  }

  // ----- packing -----

  predicate GoodRequest(r: Request) {
    r.id < TWI_ID_SIZE && 0 < r.len < MAX_LEN && (if r.write then |r.data| == r.len else r.data == [])
  }

  predicate Carries(e: Engine, r: Request) {
    e.action == (if r.write then ACTION_WRITE else ACTION_READ)
    && e.id == r.id && e.tag == r.tag && e.reg == r.reg && e.max == r.len
    && (r.write ==> |r.data| == r.len <= |e.data| && e.data[..r.len] == r.data)
  }

  /** The length survives packing exactly when it is below 128, although 128 is accepted. */
  lemma LengthSurvives(r: Request)
    requires 0 < r.len <= MAX_LEN
    ensures (Pack(r)[0] / 2 == r.len) <==> r.len < MAX_LEN
    ensures Pack(r)[0] % 2 == if r.write then ACTION_WRITE else ACTION_READ
    ensures r.len == MAX_LEN ==> Pack(r)[0] / 2 == 0
  {
    assert r.len < MAX_LEN ==> (r.len * 2) % 256 == r.len * 2;
  }

  /** What becomes of an accepted write of 128 bytes: the engine starts it with length 0 and
      the 128 data bytes stay behind, to be read as requests. */
  lemma FullWriteIsTorn(e: Engine, r: Request, rest: seq<byte>)
    requires r.write && r.len == MAX_LEN && |r.data| == MAX_LEN
    requires |e.data| == MAX_LEN && Intact(QUEUE_SIZE, e.queue)
    requires e.queue.contents == Pack(r) + rest
    ensures ActionSet(e).max == 0 && ActionSet(e).action == ACTION_WRITE
    ensures ActionSet(e).queue.contents == r.data + rest
  {
    DrainedContents(QUEUE_SIZE, e.queue, OVERHEAD);
    assert e.queue.contents[OVERHEAD..] == r.data + rest;
  }

  /** A request at the head of the queue is recovered exactly and taken off whole. */
  lemma UnpackPack(e: Engine, r: Request, rest: seq<byte>)
    requires GoodRequest(r) && |e.data| == MAX_LEN && Intact(QUEUE_SIZE, e.queue)
    requires e.queue.contents == Pack(r) + rest
    ensures var e1 := ActionSet(e);
            && Carries(e1, r) && e1.index == 0 && |e1.data| == MAX_LEN
            && e1.queue.contents == rest && Intact(QUEUE_SIZE, e1.queue)
  {
    LengthSurvives(r);
    var n := if r.write then r.len else 0;
    assert |Pack(r)| == OVERHEAD + n;
    DrainedContents(QUEUE_SIZE, e.queue, OVERHEAD + n);
    assert e.queue.contents[OVERHEAD + n..] == rest;
    assert r.write ==> e.queue.contents[OVERHEAD..OVERHEAD + n] == r.data;
  }

  /** The engine recovers a request that it accepted, and takes it off whole, if and only if it
      is shorter than 128 bytes. */
  lemma RecoveredExactly(e: Engine, r: Request, rest: seq<byte>)
    requires 0 < r.len <= MAX_LEN && (if r.write then |r.data| == r.len else r.data == []) && r.id < TWI_ID_SIZE
    requires |e.data| == MAX_LEN && Intact(QUEUE_SIZE, e.queue) && e.queue.contents == Pack(r) + rest
    ensures Carries(ActionSet(e), r) && ActionSet(e).queue.contents == rest <==> r.len < MAX_LEN
  {
    LengthSurvives(r);
    if r.len < MAX_LEN {
      UnpackPack(e, r, rest);
    }
  }

  /** An interrupt and the queue do not touch each other, so interrupts between the bytes of an
      enqueue are as good as before it. */
  lemma QueueIndependent(e: Engine, queue: Fifo, address: byte, twsr: bv8, twdr: byte)
    requires Sound(e)
    ensures Interrupt(e.(queue := queue), address, twsr, twdr).0
            == Interrupt(e, address, twsr, twdr).0.(queue := queue)
    ensures Interrupt(e.(queue := queue), address, twsr, twdr).1 == Interrupt(e, address, twsr, twdr).1
  {
  }

  /** An accepted request is in the queue whole, behind the others, exactly when it does not
      top a queue that starts above 0. */
  lemma EnqueuedWhole(e: Engine, r: Request)
    requires Accepts(e, r) && GoodRequest(r) && Intact(QUEUE_SIZE, e.queue)
    ensures (Enqueue(e, r).queue.contents == e.queue.contents + Pack(r))
            <==> !Tops(QUEUE_SIZE, e.queue, |Pack(r)|)
    ensures !Tops(QUEUE_SIZE, e.queue, |Pack(r)|) ==> Intact(QUEUE_SIZE, Enqueue(e, r).queue)
  {
    assert |Pack(r)| == if r.write then r.len + OVERHEAD else OVERHEAD;
  }
}
