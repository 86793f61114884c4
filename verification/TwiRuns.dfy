/** What the I2C master does over a whole transaction and over every run. */
module TwiRuns {
  import opened Constants
  import opened RingBuffer
  import opened Twi

  // ----- one transaction -----

  /** What the status register can hold in a phase of a master's transaction, by the tables of
      status codes for the master modes in the AVR's data sheet: START or repeated START sent; SLA+W
      or a byte acknowledged, not acknowledged, or arbitration lost; the same for SLA+R; a byte
      received and acknowledged or not; or a bus error. */
  predicate Possible(write: bool, j: nat, twsr: bv8) {
    (twsr & 0xF8)
    in (if j == 0 then {0x08 as bv8, 0x00}
        else if j == 1 then {0x18 as bv8, 0x20, 0x38, 0x00}
        else if write || j == 2 then {0x28 as bv8, 0x30, 0x38, 0x00}
        else if j == 3 then {0x10 as bv8, 0x00}
        else if j == 4 then {0x40 as bv8, 0x48, 0x38, 0x00}
        else {0x50 as bv8, 0x58, 0x38, 0x00})
  }

  /** The status that means the phase went well. */
  predicate WentWell(write: bool, j: nat, twsr: bv8) {
    (twsr & 0xF8)
    == if j == 0 then 0x08 else if j == 1 then 0x18 else if write || j == 2 then 0x28
       else if j == 3 then 0x10 else if j == 4 then 0x40 else 0x50
  }

  /** A phase that did not go well and is taken for one that did: arbitration was lost while sending,
      or the slave acknowledged neither its address for reading, nor the master a byte received. */
  predicate Mistaken(write: bool, j: nat, twsr: bv8) {
    var status := twsr & 0xF8;
    if j == 0 || (!write && j == 3) then false
    else if write || j < 3 then status == 0x38
    else if j == 4 then status == 0x48
    else status == 0x58
  }

  /** A check passes exactly when the phase went well or is mistaken for that; the three lowest bits,
      which are not status, do not matter. */
  lemma CheckExactly(write: bool, j: nat, twsr: bv8)
    requires Possible(write, j, twsr)
    ensures Check(twsr, MaskAt(write, j)) <==> WentWell(write, j, twsr) || Mistaken(write, j, twsr)
  {
  }

  /** All checks of a transaction pass exactly when each phase went well or is mistaken for that. */
  lemma {:induction false} PassedExactly(write: bool, j: nat, n: nat, ins: seq<Registers>)
    requires j + |ins| == n && forall i :: 0 <= i < |ins| ==> Possible(write, j + i, ins[i].twsr)
    ensures Passed(write, j, n, ins) == |ins|
            <==> forall i :: 0 <= i < |ins| ==>
                   WentWell(write, j + i, ins[i].twsr) || Mistaken(write, j + i, ins[i].twsr)
    decreases |ins|
  {
    if ins != [] {
      CheckExactly(write, j, ins[0].twsr);
      var rest := ins[1..];
      assert forall i :: 0 <= i < |rest| ==> rest[i] == ins[i + 1];
      PassedExactly(write, j + 1, n, rest);
      if Passed(write, j, n, ins) == |ins| {
        forall i | 0 <= i < |ins|
          ensures WentWell(write, j + i, ins[i].twsr) || Mistaken(write, j + i, ins[i].twsr)
        {
          if i > 0 {
            assert rest[i - 1] == ins[i];
            assert j + 1 + (i - 1) == j + i;
          }
        }
      }
    }
  }

  /** Interrupts a transaction of `len` bytes takes when nothing fails. */
  function Length(write: bool, len: nat): nat {
    len + if write then 3 else 5
  }

  function ModeAt(write: bool, j: nat): nat {
    if write then if j < 3 then j else WRITE_VALUE
    else if j < 5 then READ_START + j else READ_VALUE
  }

  function IndexAt(write: bool, j: nat): nat {
    if write then if j < 3 then 0 else j - 3 else if j < 5 then 0 else j - 5
  }

  function MaskAt(write: bool, j: nat): bv8 {
    if j == 0 then TW_START
    else if j == 1 then TW_MT_SLA_ACK
    else if write || j == 2 then TW_MT_DATA_ACK
    else if j == 3 then TW_REP_START
    else if j == 4 then TW_MR_SLA_ACK
    else TW_MR_DATA_ACK
  }

  function ErrorAt(write: bool, j: nat): Status {
    if write then
      if j == 0 then WriteStartError else if j == 1 then WriteSlaveError
      else if j == 2 then WriteRegError else WriteValueError
    else
      if j == 0 then ReadStartError else if j == 1 then ReadSlaveError
      else if j == 2 then ReadRegError else if j == 3 then ReadRestartError
      else if j == 4 then ReadRestartSlaveError else ReadValueError
  }

  /** The wire format: the address with a 0 bit behind it, which is SLA+W, then register and data; or
      SLA+W, register, repeated start, the address with a 1 bit, SLA+R, and the bytes received; then
      STOP. */
  function WireFormat(write: bool, address: byte, reg: byte, data: seq<byte>, len: nat): seq<Bus> {
    [Send((2 * address) % 256), Send(reg)]
    + (if write then Sends(data) else [Restart, Send((2 * address + 1) % 256)] + seq(len, _ => Receive))
    + [Stop]
  }

  function Sends(data: seq<byte>): seq<Bus> {
    seq(|data|, i requires 0 <= i < |data| => Send(data[i]))
  }

  /** A transaction operation by operation, for the 7-bit addresses that there are. */
  lemma OnTheWire(r: Request, address: byte)
    requires address < 128 && (r.write ==> |r.data| == r.len)
    ensures var w := FormatOf(r, address);
            && |w| == r.len + (if r.write then 3 else 5) && w[|w| - 1] == Stop
            && w[0] == Send(2 * address) && w[1] == Send(r.reg)
            && (r.write ==> forall i :: 2 <= i < |w| - 1 ==> w[i] == Send(r.data[i - 2]))
            && (!r.write ==>
                  && w[2] == Restart && w[3] == Send(2 * address + 1)
                  && forall i :: 4 <= i < |w| - 1 ==> w[i] == Receive)
  {
  }

  /** The engine at the j-th interrupt of a transaction that has gone well so far. */
  predicate AtPhase(e: Engine, write: bool, j: nat) {
    Sound(e) && e.max > 0 && j < Length(write, e.max)
    && e.mode == ModeAt(write, j) && e.index == IndexAt(write, j) && e.status == Success
  }

  function Format(e: Engine, write: bool, address: byte): seq<Bus>
    requires Sound(e)
  {
    WireFormat(write, address, e.reg, e.data[..e.max], e.max)
  }

  /** One interrupt: the next bus operation of the wire format, or STOP with the phase's error. */
  lemma PhaseStep(e: Engine, write: bool, j: nat, address: byte, twsr: bv8, twdr: byte)
    requires AtPhase(e, write, j)
    ensures var (e1, op) := Interrupt(e, address, twsr, twdr);
            && Sound(e1)
            && (if Check(twsr, MaskAt(write, j)) then
                  && op == Some(Format(e, write, address)[j])
                  && e1.index == IndexAt(write, j + 1)
                  && e1.data == (if !write && j >= 5 then e.data[e.index := twdr] else e.data)
                  && (if j + 1 < Length(write, e.max) then AtPhase(e1, write, j + 1)
                      else e1.mode == IDLE && e1.status == Success)
                else op == Some(Stop) && e1 == e.(mode := IDLE, status := ErrorAt(write, j)))
            && e1 == e.(mode := e1.mode, status := e1.status, index := e1.index, data := e1.data)
  {
    if write {
      assert |Sends(e.data[..e.max])| == e.max;
      if 2 <= j < e.max + 2 {
        assert Format(e, write, address)[j] == Sends(e.data[..e.max])[j - 2] == Send(e.data[j - 2]);
      }
    }
  }

  datatype Registers = Registers(twsr: bv8, twdr: byte)

  /** Interrupts until the engine is idle or none is left. */
  function Play(e: Engine, address: byte, ins: seq<Registers>): (Engine, seq<Bus>)
    requires Sound(e)
    decreases |ins|
  {
    if ins == [] || e.mode == IDLE then (e, [])
    else
      var (e1, op) := Interrupt(e, address, ins[0].twsr, ins[0].twdr);
      var (e2, rest) := Play(e1, address, ins[1..]);
      (e2, (if op.Some? then [op.value] else []) + rest)
  }

  /** How many checks pass, from the j-th of n, before the first one fails. */
  function Passed(write: bool, j: nat, n: nat, ins: seq<Registers>): nat
    decreases |ins|
  {
    if ins == [] || j >= n || !Check(ins[0].twsr, MaskAt(write, j)) then 0
    else 1 + Passed(write, j + 1, n, ins[1..])
  }

  /** What the bus sees from the j-th interrupt on when `k` checks pass. */
  function Driven(format: seq<Bus>, j: nat, k: nat): seq<Bus>
    requires j + k <= |format|
  {
    format[j..j + k] + if j + k == |format| then [] else [Stop]
  }

  /** The status tells how far the transaction went; a write leaves the data alone. */
  lemma {:induction false} StateRun(e: Engine, write: bool, j: nat, address: byte, ins: seq<Registers>)
    requires AtPhase(e, write, j) && |ins| >= Length(write, e.max) - j
    ensures var e1 := Play(e, address, ins).0;
            var k := Passed(write, j, Length(write, e.max), ins);
            && j + k <= Length(write, e.max)
            && Sound(e1)
            && e1.status == (if j + k == Length(write, e.max) then Success else ErrorAt(write, j + k))
            && (write ==> e1.data == e.data)
            && e1 == e.(mode := IDLE, status := e1.status, index := IndexAt(write, j + k), data := e1.data)
    decreases |ins|
  {
    PhaseStep(e, write, j, address, ins[0].twsr, ins[0].twdr);
    var e1 := Interrupt(e, address, ins[0].twsr, ins[0].twdr).0;
    if e1.mode != IDLE {
      StateRun(e1, write, j + 1, address, ins[1..]);
    }
  }

  /** The format of a read does not depend on the data array. */
  lemma SameFormat(e: Engine, e1: Engine, write: bool, address: byte)
    requires Sound(e) && Sound(e1) && e.reg == e1.reg && e.max == e1.max && (write ==> e.data == e1.data)
    ensures Format(e, write, address) == Format(e1, write, address)
    ensures |Format(e, write, address)| == Length(write, e.max)
  {
  }

  /** The first interrupt of what is left of a transaction, on the bus. */
  lemma BusFirst(e: Engine, write: bool, j: nat, address: byte, ins: seq<Registers>) returns (e1: Engine)
    requires AtPhase(e, write, j) && ins != []
    ensures var format := Format(e, write, address);
            var passed := Check(ins[0].twsr, MaskAt(write, j));
            && Sound(e1) && e1.max == e.max
            && |format| == Length(write, e.max) && Format(e1, write, address) == format
            && (if passed && j + 1 < |format| then AtPhase(e1, write, j + 1) else e1.mode == IDLE)
            && Play(e, address, ins).1
               == [if passed then format[j] else Stop] + Play(e1, address, ins[1..]).1
  {
    PhaseStep(e, write, j, address, ins[0].twsr, ins[0].twdr);
    e1 := Interrupt(e, address, ins[0].twsr, ins[0].twdr).0;
    SameFormat(e, e1, write, address);
  }

  /** The bus sees the wire format up to the first failed check and then STOP. */
  lemma {:induction false} BusRun(e: Engine, write: bool, j: nat, address: byte, ins: seq<Registers>)
    requires AtPhase(e, write, j) && |ins| >= Length(write, e.max) - j
    ensures var format := Format(e, write, address);
            var k := Passed(write, j, Length(write, e.max), ins);
            && j + k <= |format| == Length(write, e.max)
            && Play(e, address, ins).1 == Driven(format, j, k)
    decreases |ins|
  {
    var e1 := BusFirst(e, write, j, address, ins);
    var format := Format(e, write, address);
    if e1.mode != IDLE {
      BusRun(e1, write, j + 1, address, ins[1..]);
      DrivenStep(format, j, Passed(write, j + 1, Length(write, e.max), ins[1..]));
    } else {
      DrivenEnd(format, j, Check(ins[0].twsr, MaskAt(write, j)));
    }
  }

  lemma DrivenStep(format: seq<Bus>, j: nat, k: nat)
    requires j + 1 + k <= |format|
    ensures [format[j]] + Driven(format, j + 1, k) == Driven(format, j, k + 1)
  {
  }

  lemma DrivenEnd(format: seq<Bus>, j: nat, passed: bool)
    requires j < |format| && (passed ==> j + 1 == |format|)
    ensures Driven(format, j, if passed then 1 else 0) == [if passed then format[j] else Stop]
  {
  }

  /** The first interrupt of what is left of a read. */
  lemma ReadFirst(e: Engine, j: nat, address: byte, ins: seq<Registers>) returns (e1: Engine)
    requires AtPhase(e, false, j) && ins != []
    ensures var passed := Check(ins[0].twsr, MaskAt(false, j));
            && Sound(e1) && e1.max == e.max
            && e1.data == (if passed && j >= 5 then e.data[j - 5 := ins[0].twdr] else e.data)
            && Play(e, address, ins).0 == Play(e1, address, ins[1..]).0
            && (if passed && j + 1 < Length(false, e.max) then AtPhase(e1, false, j + 1) else e1.mode == IDLE)
  {
    PhaseStep(e, false, j, address, ins[0].twsr, ins[0].twdr);
    e1 := Interrupt(e, address, ins[0].twsr, ins[0].twdr).0;
  }

  /** `data` is `before` with the bytes received from the j-th interrupt on, up to index `end`. */
  predicate Stored(before: seq<byte>, data: seq<byte>, j: nat, end: nat, ins: seq<Registers>) {
    var i := IndexAt(false, j);
    && |data| == |before| == MAX_LEN && i <= end <= MAX_LEN && (i < end ==> end + 5 - j <= |ins|)
    && data[..i] == before[..i]
    && (forall m :: i <= m < end ==> data[m] == ins[m + 5 - j].twdr)
  }

  lemma StoredFirst(before: seq<byte>, mid: seq<byte>, data: seq<byte>, j: nat, end: nat, ins: seq<Registers>)
    requires ins != [] && |before| == MAX_LEN && IndexAt(false, j) < MAX_LEN
    requires mid == if j >= 5 then before[j - 5 := ins[0].twdr] else before
    requires Stored(mid, data, j + 1, end, ins[1..])
    ensures Stored(before, data, j, end, ins)
  {
    var rest := ins[1..];
    var i := IndexAt(false, j);
    assert data[..i] == data[..IndexAt(false, j + 1)][..i];
    forall m | i <= m < end
      ensures data[m] == ins[m + 5 - j].twdr
    {
      if j >= 5 && m == i {
        assert data[m] == data[..i + 1][m] == mid[m];
      } else {
        assert rest[m + 5 - (j + 1)] == ins[m + 5 - j];
      }
    }
  }

  lemma StoredLast(before: seq<byte>, data: seq<byte>, j: nat, passed: bool, ins: seq<Registers>)
    requires ins != [] && |before| == MAX_LEN && IndexAt(false, j) < MAX_LEN
    requires data == if passed && j >= 5 then before[j - 5 := ins[0].twdr] else before
    ensures Stored(before, data, j, IndexAt(false, if passed then j + 1 else j), ins)
  {
  }

  /** A read stores exactly the bytes the slave sent. */
  lemma {:induction false} DataRun(e: Engine, j: nat, address: byte, ins: seq<Registers>)
    requires AtPhase(e, false, j) && |ins| >= Length(false, e.max) - j
    ensures var k := Passed(false, j, Length(false, e.max), ins);
            && IndexAt(false, j + k) <= e.max
            && Stored(e.data, Play(e, address, ins).0.data, j, IndexAt(false, j + k), ins)
    decreases |ins|
  {
    var e1 := ReadFirst(e, j, address, ins);
    if e1.mode != IDLE {
      DataRun(e1, j + 1, address, ins[1..]);
      var k := Passed(false, j + 1, Length(false, e.max), ins[1..]);
      StoredFirst(e.data, e1.data, Play(e1, address, ins[1..]).0.data, j, IndexAt(false, j + 1 + k), ins);
    } else {
      StoredLast(e.data, e1.data, j, Check(ins[0].twsr, MaskAt(false, j)), ins);
    }
  }

  function FormatOf(r: Request, address: byte): seq<Bus> {
    WireFormat(r.write, address, r.reg, r.data, r.len)
  }

  lemma CarriesFormat(e: Engine, r: Request, address: byte)
    requires Sound(e) && Carries(e, r) && GoodRequest(r)
    ensures FormatOf(r, address) == Format(e, r.write, address)
    ensures |FormatOf(r, address)| == Length(r.write, r.len)
  {
    if r.write {
      assert e.data[..e.max] == r.data;
    }
  }

  /** The engine as it starts the request at the head of the queue. */
  lemma Started(e: Engine, r: Request, rest: seq<byte>)
    requires Sound(e) && e.status == Success && GoodRequest(r) && Intact(QUEUE_SIZE, e.queue)
    requires e.queue.contents == Pack(r) + rest
    ensures var e0 := Begin(ActionSet(e));
            && AtPhase(e0, r.write, 0) && Carries(e0, r)
  {
    UnpackPack(e, r, rest);
  }

  /** A transaction of the request the engine carries. */
  lemma CarriedRun(e: Engine, r: Request, address: byte, ins: seq<Registers>)
    requires AtPhase(e, r.write, 0) && Carries(e, r) && GoodRequest(r) && |ins| >= Length(r.write, r.len)
    ensures var (e1, ops) := Play(e, address, ins);
            var format := FormatOf(r, address);
            var k := Passed(r.write, 0, |format|, ins);
            && |format| == Length(r.write, r.len) && k <= |format|
            && ops == Driven(format, 0, k)
            && e1.mode == IDLE && e1.tag == e.tag && e1.max == e.max && e1.index == IndexAt(r.write, k)
            && e1.status == (if k == |format| then Success else ErrorAt(r.write, k))
  {
    CarriesFormat(e, r, address);
    StateRun(e, r.write, 0, address, ins);
    BusRun(e, r.write, 0, address, ins);
  }

  lemma DrivenWhole(format: seq<Bus>, k: nat)
    requires k <= |format|
    ensures Driven(format, 0, k) == if k == |format| then format else format[..k] + [Stop]
  {
  }

  /** A whole transaction, from the request's bytes at the head of the queue: the bus sees the
      request's wire format, cut short with STOP at the first failed check; SUCCESS is the
      status exactly when all checks passed, which takes len + 3 interrupts for a write and
      len + 5 for a read. */
  lemma Transaction(e: Engine, r: Request, rest: seq<byte>, address: byte, ins: seq<Registers>)
    requires Sound(e) && e.status == Success && GoodRequest(r) && Intact(QUEUE_SIZE, e.queue)
    requires e.queue.contents == Pack(r) + rest && |ins| >= Length(r.write, r.len)
    ensures Sound(Begin(ActionSet(e)))
    ensures var (e1, ops) := Play(Begin(ActionSet(e)), address, ins);
            var format := FormatOf(r, address);
            var k := Passed(r.write, 0, |format|, ins);
            && k <= |format| == r.len + (if r.write then 3 else 5)
            && e1.mode == IDLE && e1.tag == r.tag && e1.max == r.len
            && (if k == |format| then ops == format && e1.status == Success && e1.index == r.len
                else ops == format[..k] + [Stop] && e1.status == ErrorAt(r.write, k) && e1.index < r.len)
  {
    Started(e, r, rest);
    CarriedRun(Begin(ActionSet(e)), r, address, ins);
    var format := FormatOf(r, address);
    DrivenWhole(format, Passed(r.write, 0, |format|, ins));
  }

  /** A read that meets no failed check holds the bytes the slave sent. */
  lemma ReceivedData(e: Engine, r: Request, rest: seq<byte>, address: byte, ins: seq<Registers>)
    requires Sound(e) && e.status == Success && GoodRequest(r) && Intact(QUEUE_SIZE, e.queue)
    requires e.queue.contents == Pack(r) + rest && |ins| >= Length(r.write, r.len)
    requires !r.write && Passed(false, 0, r.len + 5, ins) == r.len + 5
    ensures Sound(Begin(ActionSet(e)))
    ensures var data := Play(Begin(ActionSet(e)), address, ins).0.data;
            |data| == MAX_LEN && forall m :: 0 <= m < r.len ==> data[m] == ins[m + 5].twdr
  {
    UnpackPack(e, r, rest);
    DataRun(Begin(ActionSet(e)), 0, address, ins);
  }

  /** A transaction whose statuses a master can find reports SUCCESS if and only if each phase went
      well or is mistaken for one that did. */
  lemma SuccessExactly(e: Engine, r: Request, rest: seq<byte>, address: byte, ins: seq<Registers>)
    requires Sound(e) && e.status == Success && GoodRequest(r) && Intact(QUEUE_SIZE, e.queue)
    requires e.queue.contents == Pack(r) + rest && |ins| == r.len + (if r.write then 3 else 5)
    requires forall j :: 0 <= j < |ins| ==> Possible(r.write, j, ins[j].twsr)
    ensures Sound(Begin(ActionSet(e)))
    ensures Play(Begin(ActionSet(e)), address, ins).0.status == Success
            <==> forall j :: 0 <= j < |ins| ==>
                   WentWell(r.write, j, ins[j].twsr) || Mistaken(r.write, j, ins[j].twsr)
  {
    Transaction(e, r, rest, address, ins);
    PassedExactly(r.write, 0, |ins|, ins);
  }

  /** A slave that has stopped answering: the status is 0x48 when the read turns around, and 0x58
      for every byte.  The read reports SUCCESS with whatever the lines held. */
  lemma DeafSlave(e: Engine, r: Request, rest: seq<byte>, address: byte, ins: seq<Registers>)
    requires Sound(e) && e.status == Success && GoodRequest(r) && Intact(QUEUE_SIZE, e.queue)
    requires e.queue.contents == Pack(r) + rest && !r.write && |ins| == r.len + 5
    requires ins[0].twsr == 0x08 && ins[1].twsr == 0x18 && ins[2].twsr == 0x28 && ins[3].twsr == 0x10
    requires ins[4].twsr == 0x48 && forall j :: 5 <= j < |ins| ==> ins[j].twsr == 0x58
    ensures Sound(Begin(ActionSet(e)))
    ensures var e1 := Play(Begin(ActionSet(e)), address, ins).0;
            && e1.status == Success && |e1.data| == MAX_LEN
            && forall m :: 0 <= m < r.len ==> e1.data[m] == ins[m + 5].twdr
  {
    SuccessExactly(e, r, rest, address, ins);
    Transaction(e, r, rest, address, ins);
    ReceivedData(e, r, rest, address, ins);
  }
}
