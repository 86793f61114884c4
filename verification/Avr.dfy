/** The AVR's link code on its own buffers: src/avr/spi.c, flush.c, postpone.c, encode.c and
    decode.c, one class a file.  Every method's effect is the value-level function of
    Slave or Decoder that the link's state machine runs. */
module AvrObjects {
  import opened Constants
  import opened Framing
  import opened Decoder
  import opened Slave
  import opened RingBuffer

  /** A 255-byte buffer that has lost nothing. */
  ghost predicate GoodBuffer(ring: Ring)
    reads ring, ring.data
  {
    ring.data.Length == BUFFER_SIZE && ring.Valid() && Intact(BUFFER_SIZE, ring.View())
  }

  class Spi {
    const readBuf: Ring
    const writeBuf: Ring
    var spdr: byte
    var irq: bool

    ghost function Repr(): set<object> {
      {this, readBuf, writeBuf, readBuf.data, writeBuf.data}
    }

    ghost predicate Valid()
      reads Repr()
    {
      GoodBuffer(readBuf) && GoodBuffer(writeBuf)
      && readBuf != writeBuf && readBuf.data != writeBuf.data
    }

    /** The link state with nothing but the SPI's part of it. */
    ghost function View(): Avr
      reads Repr()
      requires Valid()
    {
      Avr(readBuf.Contents(), writeBuf.Contents(), spdr, irq, Hunting, [], [], false)
    }

    constructor ()
      ensures Valid() && fresh(Repr())
      ensures View() == Avr([], [], 0, false, Hunting, [], [], false)
    {
      readBuf := new Ring(BUFFER_SIZE);
      writeBuf := new Ring(BUFFER_SIZE);
      spdr := 0;
      irq := false;
    }

    method InterruptStart()
      requires Valid()
      modifies this
      ensures Valid() && View() == old(View()).(irq := true)
    {
      irq := true;
    }

    method ReadSymbol() returns (symbol: Option<byte>)
      requires Valid()
      modifies readBuf
      ensures Valid()
      ensures symbol == if old(readBuf.Contents()) == [] then None else Some(old(readBuf.Contents())[0])
      ensures View() == old(View()).(read := if symbol.None? then [] else old(readBuf.Contents())[1..])
    {
      symbol := readBuf.ByteDrain();
    }

    method ReadArray(arr: array<byte>, n: nat) returns (ok: bool)
      requires Valid() && n <= arr.Length && n < 256 && arr !in Repr()
      modifies readBuf, arr
      ensures Valid()
      ensures ok == (n <= |old(readBuf.Contents())|)
      ensures ok ==> arr[..n] == old(readBuf.Contents())[..n]
      ensures !ok ==> arr[..] == old(arr[..])
      ensures forall k :: n <= k < arr.Length ==> arr[k] == old(arr[k])
      ensures View() == old(View()).(read := old(readBuf.Contents())[if ok then n else 0..])
    {
      ghost var q := readBuf.View();
      ok := readBuf.ArrayDrain(arr, n);
      if ok {
        DrainedContents(BUFFER_SIZE, q, n);
      }
    }

    method ReadSpace() returns (n: nat)
      requires Valid()
      ensures n == Space(readBuf.Contents())
    {
      n := readBuf.Space();
    }

    method WriteSpace() returns (n: nat)
      requires Valid()
      ensures n == Space(writeBuf.Contents())
    {
      n := writeBuf.Space();
    }

    method ReadSize() returns (n: nat)
      requires Valid()
      ensures n == |readBuf.Contents()|
    {
      n := readBuf.Size();
    }

    method WriteArray(arr: array<byte>, n: nat) returns (ok: bool)
      requires Valid() && n <= arr.Length && n < 256 && arr !in Repr()
      requires !Tops(BUFFER_SIZE, writeBuf.View(), n)
      modifies this, writeBuf`finish, writeBuf.data
      ensures Valid()
      ensures ok == (n <= old(Space(writeBuf.Contents())))
      ensures View() == Slave.WriteArray(old(View()), arr[..n])
      ensures irq && writeBuf.Contents() == old(writeBuf.Contents()) + if ok then arr[..n] else []
    {
      ok := writeBuf.ArrayFill(writeBuf.start, arr, n, 0);
      InterruptStart();
    }

    /** The SPI interrupt: `b` has been clocked in and `out`, the old SPDR, has gone out. */
    method TransferComplete(b: byte) returns (out: byte)
      requires Valid() && !Tops(BUFFER_SIZE, readBuf.View(), 1)
      modifies Repr()
      ensures Valid()
      ensures out == old(spdr)
      ensures View() == Exchange(old(View()), b)
    {
      out := spdr;
      var ok := readBuf.ByteFill(readBuf.start, b, 0);
      if !ok {
        spdr := SPI_READ_OVERFLOW;
        return;
      }
      LoadNext();
    }

    /** The next byte to send into SPDR, or filler with IRQ lowered. */
    method LoadNext()
      requires Valid()
      modifies this, writeBuf
      ensures Valid()
      ensures var a := old(View());
              View() == if a.write != [] then a.(spdr := a.write[0], write := a.write[1..])
                        else a.(spdr := SPI_WRITE_UNDERFLOW, irq := false)
    {
      var toSend := writeBuf.ByteDrain();
      if toSend.Some? {
        spdr := toSend.value;
      } else {
        spdr := SPI_WRITE_UNDERFLOW;
        irq := false;
      }
    }
  }

  class Flush {
    const shiftData: Ring
    var drain: bool

    ghost function Repr(): set<object> {
      {this, shiftData, shiftData.data}
    }

    ghost predicate Valid()
      reads Repr()
    {
      GoodBuffer(shiftData)
    }

    ghost function Shift(): seq<byte>
      reads Repr()
      requires Valid()
    {
      shiftData.Contents()
    }

    constructor ()
      ensures Valid() && fresh(Repr()) && Shift() == [] && !drain
    {
      shiftData := new Ring(BUFFER_SIZE);
      drain := false;
    }

    method ShiftColumns(arr: array<byte>, n: nat) returns (ok: bool)
      requires Valid() && n <= arr.Length && n < 256 && arr !in Repr()
      requires !drain ==> !Tops(BUFFER_SIZE, shiftData.View(), n)
      modifies shiftData`finish, shiftData.data
      ensures Valid() && drain == old(drain)
      ensures ok == (drain || n <= old(Space(Shift())))
      ensures Shift() == if ok && !drain then old(Shift()) + arr[..n] else old(Shift())
    {
      if drain {
        return true;
      }
      ok := shiftData.ArrayFill(shiftData.start, arr, n, 0);
    }

    method GetData(position: nat) returns (column: byte)
      requires Valid() && position < |Shift()|
      ensures column == Shift()[position]
    {
      var got := shiftData.ByteGet(position);
      column := if got.Some? then got.value else 0;
    }

    /** The 64 columns on show, 32 a display. */
    method Dump() returns (left: seq<byte>, right: seq<byte>)
      requires Valid() && |Shift()| >= MIN_DATA_SIZE
      ensures left + right == Shift()[..MIN_DATA_SIZE] && |left| == |right|
    {
      ghost var c := Shift();
      left, right := [], [];
      for i := 0 to 32
        invariant left == c[..i] && right == c[32..32 + i]
      {
        var l := GetData(i);
        var r := GetData(i + 32);
        left := left + [l];
        right := right + [r];
        assert c[..i + 1] == c[..i] + [c[i]] && c[32..33 + i] == c[32..32 + i] + [c[32 + i]];
      }
      assert c[..32] + c[32..64] == c[..64];
    }

    /** Shows the first 64 columns and shifts by one. */
    method ShiftDisplay() returns (left: seq<byte>, right: seq<byte>)
      requires Valid()
      modifies shiftData
      ensures Valid() && drain == old(drain)
      ensures |old(Shift())| < MIN_DATA_SIZE ==> left == right == [] && Shift() == old(Shift())
      ensures |old(Shift())| >= MIN_DATA_SIZE ==>
                left + right == old(Shift())[..MIN_DATA_SIZE] && |left| == |right|
                && Shift() == old(Shift())[1..]
    {
      left, right := [], [];
      var size := shiftData.Size();
      if size < MIN_DATA_SIZE {
        return;
      }
      left, right := Dump();
      var symbol := shiftData.ByteDrain();
    }

    method DrainStart()
      requires Valid()
      modifies this, shiftData
      ensures Valid() && drain && Shift() == []
    {
      drain := true;
      shiftData.Clear();
    }

    method DrainStop()
      requires Valid()
      modifies this
      ensures Valid() && !drain && Shift() == old(Shift())
    {
      drain := false;
    }

    method BufferSpace() returns (n: nat)
      requires Valid()
      ensures n == Space(Shift())
    {
      n := shiftData.Space();
    }
  }

  const POSTPONE_BUF_SIZE := 20

  class Postpone {
    const spi: Spi
    const flush: Flush
    const message: array<byte>
    var size: nat

    ghost function Repr(): set<object> {
      {this, message} + spi.Repr() + flush.Repr()
    }

    ghost predicate Valid()
      reads Repr()
    {
      spi.Valid() && flush.Valid() && spi.Repr() !! flush.Repr()
      && message !in spi.Repr() && message !in flush.Repr()
      && this !in spi.Repr() && this !in flush.Repr()
      && message.Length == POSTPONE_BUF_SIZE && size <= POSTPONE_BUF_SIZE
    }

    ghost function View(): Avr
      reads Repr()
      requires Valid()
    {
      spi.View().(slot := message[..size], shift := flush.Shift(), drain := flush.drain)
    }

    constructor (spi: Spi, flush: Flush)
      requires spi.Valid() && flush.Valid() && spi.Repr() !! flush.Repr()
      ensures Valid() && this.spi == spi && this.flush == flush && size == 0
      ensures fresh(message)
    {
      this.spi := spi;
      this.flush := flush;
      size := 0;
      message := new byte[POSTPONE_BUF_SIZE](_ => SPI_WRITE_UNDERFLOW);
    }

    method IsWritable() returns (ok: bool)
      requires Valid()
      ensures ok == Writable(View())
    {
      var n := spi.WriteSpace();
      ok := n >= ENOUGH_SPACE;
    }

    method IsEnoughSpace() returns (ok: bool)
      requires Valid()
      ensures ok == EnoughSpace(View())
    {
      ok := IsWritable();
      if ok {
        var read := spi.ReadSpace();
        var shift := flush.BufferSpace();
        ok := read >= ENOUGH_SPACE && shift >= ENOUGH_SPACE;
      }
    }

    method Try()
      requires Valid()
      modifies Repr()
      ensures Valid() && View() == PostponeTry(old(View()))
    {
      if size == 0 {
        return;
      }
      var enough := IsEnoughSpace();
      if !enough {
        return;
      }
      Release();
    }

    /** Writes the kept message out and forgets it. */
    method Release()
      requires Valid() && size > 0 && EnoughSpace(View())
      modifies this`size, spi, spi.writeBuf`finish, spi.writeBuf.data
      ensures Valid() && View() == Slave.WriteArray(old(View()), old(View()).slot).(slot := [])
    {
      var status := spi.WriteArray(message, size);
      size := 0;
    }

    method Message(msg: array<byte>, n: nat, serial: byte)
      requires Valid() && msg !in Repr() && 0 < n <= msg.Length && n <= POSTPONE_BUF_SIZE
      modifies Repr()
      ensures Valid() && View() == PostponeMessage(old(View()), msg[..n], serial)
    {
      if serial == SERIAL_ID_TO_IGNORE {
        var writable := IsWritable();
        if writable {
          var status := spi.WriteArray(msg, n);
        }
        return;
      }
      if size != 0 {
        return;
      }
      size := n;
      Store(msg, n);
    }

    method Store(msg: array<byte>, n: nat)
      requires n <= message.Length && n <= msg.Length && msg != message
      modifies message
      ensures message[..n] == msg[..n]
    {
      for i := 0 to n
        invariant message[..i] == msg[..i]
      {
        message[i] := msg[i];
      }
    }
  }

  const OUT_SIZE := 15

  class Encode {
    const postpone: Postpone
    const outBuf: array<byte>

    ghost function Repr(): set<object> {
      {outBuf} + postpone.Repr()
    }

    ghost predicate Valid()
      reads Repr()
    {
      postpone.Valid() && outBuf !in postpone.Repr() && outBuf.Length == OUT_SIZE
    }

    constructor (postpone: Postpone)
      requires postpone.Valid()
      ensures Valid() && this.postpone == postpone && fresh(outBuf)
    {
      this.postpone := postpone;
      outBuf := new byte[OUT_SIZE];
    }

    method Header(id: byte, serial: byte, size: byte) returns (len: nat)
      requires outBuf.Length == OUT_SIZE
      modifies outBuf
      ensures len == 3 && outBuf[..4] == [EYE_CATCH, size, serial, id]
    {
      len := 0;
      outBuf[len] := EYE_CATCH;
      len := len + 1;
      outBuf[len] := size;
      len := len + 1;
      outBuf[len] := serial;
      len := len + 1;
      outBuf[len] := id;
    }

    method Build(id: byte, serial: byte, payload: seq<byte>) returns (n: nat)
      requires outBuf.Length == OUT_SIZE && |payload| <= 8
      modifies outBuf
      ensures n == |payload| + 4 && outBuf[..n] == Wire(Framing.Msg(serial, id, payload))
    {
      var len := Header(id, serial, 2 + |payload|);
      for i := 0 to |payload|
        invariant len == 3 + i
        invariant outBuf[..4] == [EYE_CATCH, 2 + |payload|, serial, id]
        invariant outBuf[4..4 + i] == payload[..i]
      {
        len := len + 1;
        outBuf[len] := payload[i];
      }
      n := len + 1;
      assert outBuf[..n] == outBuf[..4] + outBuf[4..n];
    }

    /** encode_msg_0 to encode_msg_8, by the number of payload bytes. */
    method Msg(id: byte, serial: byte, payload: seq<byte>)
      requires Valid() && |payload| <= 8
      modifies Repr()
      ensures Valid()
      ensures postpone.View() == EncodeMsg(old(postpone.View()), Framing.Msg(serial, id, payload))
    {
      var n := Build(id, serial, payload);
      postpone.Message(outBuf, n, serial);
    }
  }

  const IN_SIZE := LED_ARRAY_SIZE + MSG_OVERHEAD

  function HeaderOf(decoded: nat, size: byte, serial: byte, id: byte): Header {
    if decoded == 0 then Hunting
    else if decoded == 1 then Caught
    else if decoded == 2 then Sized(size)
    else if decoded == 3 then Serialed(size, serial)
    else Identified(size, serial, id)
  }

  class Decode {
    const encode: Encode
    /** How many of the flags CATCH, SIZE, SERIAL and MSG_ID are set; they are set in this order. */
    var decoded: nat
    var msgSize: byte
    var msgSerial: byte
    var msgId: byte
    const inBuf: array<byte>

    ghost function Repr(): set<object> {
      {this, inBuf} + encode.Repr()
    }

    ghost predicate Valid()
      reads Repr()
    {
      encode.Valid() && inBuf.Length == IN_SIZE && inBuf !in encode.Repr() && this !in encode.Repr()
      && decoded <= 4
    }

    ghost function Head(): Header
      reads this
    {
      HeaderOf(decoded, msgSize, msgSerial, msgId)
    }

    ghost function View(): Avr
      reads Repr()
      requires Valid()
    {
      encode.postpone.View().(head := Head())
    }

    constructor (encode: Encode)
      requires encode.Valid()
      ensures Valid() && this.encode == encode && Head() == Hunting && fresh(inBuf)
    {
      this.encode := encode;
      decoded, msgSize, msgSerial, msgId := 0, 0, 0, 1;
      inBuf := new byte[IN_SIZE];
    }

    method Init()
      requires Valid()
      modifies this
      ensures Valid() && View() == old(View()).(head := Hunting)
      ensures inBuf[..] == old(inBuf[..])
    {
      decoded, msgSize, msgSerial, msgId := 0, 0, 0, 1;
    }

    /** The STATUS reply to the message in the static fields. */
    method Reply(status: byte)
      requires Valid()
      modifies encode.Repr()
      ensures Valid()
      ensures View() == EncodeMsg(old(View()), Framing.Msg(msgSerial, MSG_ID_STATUS, [status, msgId]))
    {
      encode.Msg(MSG_ID_STATUS, msgSerial, [status, msgId]);
    }

    method LedArray(n: nat) returns (ok: bool)
      requires Valid() && n <= IN_SIZE
      requires !View().drain ==> |View().shift| + n < BUFFER_SIZE
      modifies encode.postpone.flush.shiftData`finish, encode.postpone.flush.shiftData.data
      ensures Valid()
      ensures ok == ShiftAccepts(old(View()), inBuf[..n])
      ensures View() == ShiftData(old(View()), inBuf[..n])
    {
      ok := encode.postpone.flush.ShiftColumns(inBuf, n);
    }

    /** Acts on the message in the static fields; `answered` is the menu's result. */
    method Dispatch(n: nat, answered: bool)
      requires Valid() && n <= IN_SIZE
      requires msgId == MSG_ID_LED_ARRAY && !View().drain ==> |View().shift| + n < BUFFER_SIZE
      modifies encode.Repr()
      ensures Valid()
      ensures View() == Slave.Dispatch(old(View()), Framing.Msg(msgSerial, msgId, inBuf[..n]), answered)
    {
      var status := STATUS_FAIL;
      if msgId == MSG_ID_LED_ARRAY {
        var ok := LedArray(n);
        status := if ok then STATUS_SUCCESS else STATUS_FAIL;
      } else if msgId == MSG_ID_QUERY_NAME || msgId == MSG_ID_QUERY_NUMBER {
        status := if answered then STATUS_SUCCESS else STATUS_FAIL;
      } else if msgId == MSG_ID_IDLE || msgId == MSG_ID_HANDSHAKE {
        return;
      } else if msgId == MSG_ID_SYNC_CLOCK {
        status := STATUS_SUCCESS;
      } else {
        status := STATUS_UNKNOWN_MSG;
      }
      Reply(status);
    }

    /** Reads one header symbol if there is one. */
    method ReadSymbol() returns (symbol: Option<byte>)
      requires Valid()
      modifies encode.postpone.spi.readBuf
      ensures Valid()
      ensures symbol == if old(View()).read == [] then None else Some(old(View()).read[0])
      ensures View() == old(View()).(read := if symbol.None? then [] else old(View()).read[1..])
    {
      symbol := encode.postpone.spi.ReadSymbol();
    }

    method ReadPayload(n: nat) returns (ok: bool)
      requires Valid() && n <= IN_SIZE
      modifies encode.postpone.spi.readBuf, inBuf
      ensures Valid() && ok == (n <= |old(View()).read|)
      ensures ok ==> inBuf[..n] == old(View()).read[..n]
      ensures View() == old(View()).(read := old(View()).read[if ok then n else 0..])
    {
      ok := encode.postpone.spi.ReadArray(inBuf, n);
    }

    /** Waits for the whole payload, then acts on the message. */
    method Payload(answered: bool)
      requires Valid() && decoded == 4 && PayloadSize(msgSize) <= IN_SIZE
      requires CallFits(View())
      modifies Repr()
      ensures Valid() && View() == ReadStep(old(View()), answered)
    {
      PayloadStep(View(), answered);
      var n := PayloadSize(msgSize);
      var ok := ReadPayload(n);
      if !ok {
        return;
      }
      Dispatch(n, answered);
      Init();
    }

    method SetSize(b: byte)
      requires Valid() && decoded == 1
      modifies this`msgSize, this`decoded
      ensures Valid() && decoded == 2 && View() == old(View()).(head := Sized(b))
    {
      msgSize := b;
      decoded := 2;
    }

    method SizeField() returns (wait: bool)
      requires Valid() && decoded >= 1
      modifies this, encode.postpone.spi.readBuf
      ensures Valid() && (if wait then Blocked(Inbound(View())) else decoded >= 2)
      ensures wait || old(decoded) > 1 ==> View() == old(View())
      ensures !wait && old(decoded) == 1 ==>
                old(View()).read != []
                && View() == old(View()).(read := old(View()).read[1..], head := Sized(old(View()).read[0]))
    {
      if decoded < 2 {
        var symbol := ReadSymbol();
        if symbol.None? {
          return true;
        }
        SetSize(symbol.value);
      }
      return false;
    }

    method SetSerial(b: byte)
      requires Valid() && decoded == 2
      modifies this`msgSerial, this`decoded
      ensures Valid() && decoded == 3 && View() == old(View()).(head := Serialed(old(msgSize), b))
    {
      msgSerial := b;
      decoded := 3;
    }

    method SerialField() returns (wait: bool)
      requires Valid() && decoded >= 2
      modifies this, encode.postpone.spi.readBuf
      ensures Valid() && (if wait then Blocked(Inbound(View())) else decoded >= 3)
      ensures wait || old(decoded) > 2 ==> View() == old(View())
      ensures !wait && old(decoded) == 2 ==>
                old(View()).read != []
                && View() == old(View()).(read := old(View()).read[1..],
                                          head := Serialed(old(msgSize), old(View()).read[0]))
    {
      if decoded < 3 {
        var symbol := ReadSymbol();
        if symbol.None? {
          return true;
        }
        SetSerial(symbol.value);
      }
      return false;
    }

    method SetId(b: byte)
      requires Valid() && decoded == 3
      modifies this`msgId, this`decoded
      ensures Valid() && decoded == 4 && View() == old(View()).(head := Identified(old(msgSize), old(msgSerial), b))
    {
      msgId := b;
      decoded := 4;
    }

    method IdField() returns (wait: bool)
      requires Valid() && decoded >= 3
      modifies this, encode.postpone.spi.readBuf
      ensures Valid() && (if wait then Blocked(Inbound(View())) else decoded == 4)
      ensures wait || old(decoded) > 3 ==> View() == old(View())
      ensures !wait && old(decoded) == 3 ==>
                old(View()).read != []
                && View() == old(View()).(read := old(View()).read[1..],
                                          head := Identified(old(msgSize), old(msgSerial), old(View()).read[0]))
    {
      if decoded < 4 {
        var symbol := ReadSymbol();
        if symbol.None? {
          return true;
        }
        SetId(symbol.value);
      }
      return false;
    }

    /** The rest of a call once the header is complete. */
    method FromPayload(answered: bool)
      requires Valid() && decoded == 4
      requires Sane(Pending(Inbound(View()), [])) && CallFits(View())
      modifies Repr()
      ensures Valid() && View() == OnCall(old(View()), answered)
    {
      SaneSize(View());
      OnCallStep(View(), answered);
      Payload(answered);
    }

    /** The rest of a call from the id field on. */
    method FromId(answered: bool)
      requires Valid() && decoded >= 3
      requires Sane(Pending(Inbound(View()), [])) && CallFits(View())
      modifies Repr()
      ensures Valid() && View() == OnCall(old(View()), answered)
    {
      ghost var a := View();
      OnCallStep(a, answered);
      var wait := IdField();
      if wait {
        return;
      }
      HeaderMoves(a, View(), answered);
      FromPayload(answered);
    }

    /** The rest of a call from the serial field on. */
    method FromSerial(answered: bool)
      requires Valid() && decoded >= 2
      requires Sane(Pending(Inbound(View()), [])) && CallFits(View())
      modifies Repr()
      ensures Valid() && View() == OnCall(old(View()), answered)
    {
      ghost var a := View();
      OnCallStep(a, answered);
      var wait := SerialField();
      if wait {
        return;
      }
      HeaderMoves(a, View(), answered);
      FromId(answered);
    }

    /** The rest of a call from the size field on. */
    method FromSize(answered: bool)
      requires Valid() && decoded >= 1
      requires Sane(Pending(Inbound(View()), [])) && CallFits(View())
      modifies Repr()
      ensures Valid() && View() == OnCall(old(View()), answered)
    {
      ghost var a := View();
      OnCallStep(a, answered);
      var wait := SizeField();
      if wait {
        return;
      }
      HeaderMoves(a, View(), answered);
      FromSerial(answered);
    }

    method CatchField() returns (found: bool)
      requires Valid() && decoded == 0 && View().read != []
      modifies this, encode.postpone.spi.readBuf
      ensures Valid() && found == (old(View()).read[0] == EYE_CATCH)
      ensures decoded == if found then 1 else 0
      ensures View() == old(View()).(read := old(View()).read[1..], head := if found then Caught else Hunting)
    {
      var symbol := ReadSymbol();
      found := symbol.Some? && symbol.value == EYE_CATCH;
      if found {
        decoded := 1;
      }
    }

    /** A call that looks for the eye-catch first. */
    method FromCatch(answered: bool)
      requires Valid() && decoded == 0 && View().read != [] && Sane(Pending(Inbound(View()), []))
      requires CallFits(ReadStep(View(), answered))
      modifies Repr()
      ensures Valid() && View() == TryCall(old(View()), answered)
    {
      ghost var a := View();
      var found := CatchField();
      CatchMoves(a, View(), answered);
      if found {
        FromSize(answered);
      }
    }

    /** One call of decode_try. */
    method Try(answered: bool)
      requires Valid() && Sane(Pending(Inbound(View()), []))
      requires CallFits(if View().head == Hunting && View().read != [] then ReadStep(View(), answered) else View())
      modifies Repr()
      ensures Valid() && View() == TryCall(old(View()), answered)
    {
      var size := encode.postpone.spi.ReadSize();
      if size == 0 {
        return;
      }
      if decoded == 0 {
        FromCatch(answered);
      } else {
        FromSize(answered);
      }
    }
  }

  /** The eye-catch looked for. */
  lemma CatchMoves(a: Avr, b: Avr, answered: bool)
    requires a.head.Hunting? && a.read != [] && Sane(Pending(Inbound(a), []))
    requires b == a.(read := a.read[1..], head := if a.read[0] == EYE_CATCH then Caught else Hunting)
    ensures b == ReadStep(a, answered) && Sane(Pending(Inbound(b), []))
    ensures TryCall(a, answered) == OnCall(b, answered) && (b.head.Hunting? ==> OnCall(b, answered) == b)
  {
    CatchStep(a, answered);
    StepScans(Inbound(a), []);
  }

  /** One header field read, or nothing to read because it is decoded already. */
  lemma HeaderMoves(a: Avr, b: Avr, answered: bool)
    requires !a.head.Hunting? && Sane(Pending(Inbound(a), []))
    requires b == a || (!a.head.Identified? && a.read != [] && b == ReadStep(a, answered))
    ensures OnCall(b, answered) == OnCall(a, answered) && Sane(Pending(Inbound(b), []))
    ensures CallFits(a) ==> CallFits(b)
  {
    if b != a {
      OnCallStep(a, answered);
      StepScans(Inbound(a), []);
      HeaderStep(a, answered);
    }
  }

  lemma SaneSize(a: Avr)
    requires a.head.Identified? && Sane(Pending(Inbound(a), []))
    ensures PayloadSize(a.head.size) <= IN_SIZE
  {
    assert Pending(Inbound(a), [])[1] == a.head.size;
  }
}
