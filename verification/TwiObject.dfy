/** The I2C master as it runs (src/avr/twi.c): its static variables, its queue in a 255-byte
    ring and its interrupt, each method having the effect of the function of Twi. */
module TwiObject {
  import opened Constants
  import opened RingBuffer
  import opened Twi

  class Master {
    const queue: Ring
    const mData: array<byte>
    const address: byte
    var mode: nat
    var status: Status
    var action: nat
    var tag: byte
    var id: byte
    var reg: byte
    var index: nat
    var max: nat

    ghost function Repr(): set<object> {
      {this, queue, queue.data, mData}
    }

    ghost predicate Valid()
      reads Repr()
    {
      mData.Length == MAX_LEN && queue.data.Length == QUEUE_SIZE && queue.Valid() && mData != queue.data
      && Sound(View())
    }

    ghost function View(): Engine
      reads this, queue, queue.data, mData
      requires queue.Valid()
    {
      Engine(mode, status, action, tag, id, reg, index, max, mData[..], queue.View())
    }

    constructor (address: byte)
      ensures Valid() && View() == Init() && this.address == address && fresh(Repr())
    {
      this.address := address;
      mode, status, action, tag, id, reg, index, max := IDLE, Success, ACTION_IDLE, 0, TWI_ID_SIZE, 0, 0, 0;
      mData := new byte[MAX_LEN](_ => 0);
      queue := new Ring(QUEUE_SIZE);
      new;
      assert mData[..] == Zeros();
    }

    /** The TWI interrupt. */
    method Isr(twsr: bv8, twdr: byte) returns (op: Option<Bus>)
      requires Valid()
      modifies this`mode, this`status, this`index, mData
      ensures Valid()
      ensures (View(), op) == Interrupt(old(View()), address, twsr, twdr)
    {
      if mode == WRITE_VALUE {
        op := WriteValue(twsr);
      } else if mode == READ_VALUE {
        op := ReadValue(twsr, twdr);
      } else {
        op := Phase(twsr);
      }
    }

    method Phase(twsr: bv8) returns (op: Option<Bus>)
      requires Valid() && mode != WRITE_VALUE && mode != READ_VALUE
      modifies this`mode, this`status
      ensures Valid()
      ensures forall twdr :: (View(), op) == Interrupt(old(View()), address, twsr, twdr)
    {
      match mode
      case 0 => op := Next(Check(twsr, TW_START), WriteStartError, Send(SlaveAddress(address, false)));
      case 1 => op := Next(Check(twsr, TW_MT_SLA_ACK), WriteSlaveError, Send(reg));
      case 2 => op := Next(Check(twsr, TW_MT_DATA_ACK), WriteRegError, Send(mData[index]));
      case 4 => op := Next(Check(twsr, TW_START), ReadStartError, Send(SlaveAddress(address, false)));
      case 5 => op := Next(Check(twsr, TW_MT_SLA_ACK), ReadSlaveError, Send(reg));
      case 6 => op := Next(Check(twsr, TW_MT_DATA_ACK), ReadRegError, Restart);
      case 7 => op := Next(Check(twsr, TW_REP_START), ReadRestartError, Send(SlaveAddress(address, true)));
      case 8 => op := Next(Check(twsr, TW_MR_SLA_ACK), ReadRestartSlaveError, Receive);
      case _ => op := None;
    }

    /** Goes on with the next mode, or stops with the phase's error. */
    method Next(passed: bool, error: Status, go: Bus) returns (op: Option<Bus>)
      modifies this`mode, this`status
      ensures mode == (if passed then old(mode) + 1 else IDLE) && status == (if passed then old(status) else error)
      ensures op == Some(if passed then go else Stop)
    {
      mode := mode + 1;
      if passed {
        op := Some(go);
      } else {
        op := Fail(error);
      }
    }

    method WriteValue(twsr: bv8) returns (op: Option<Bus>)
      requires Valid() && mode == WRITE_VALUE
      modifies this`mode, this`status, this`index
      ensures Valid()
      ensures forall twdr :: (View(), op) == Interrupt(old(View()), address, twsr, twdr)
    {
      if !Check(twsr, TW_MT_DATA_ACK) {
        op := Fail(WriteValueError);
      } else {
        index := index + 1;
        if index < max {
          op := Some(Send(mData[index]));
        } else {
          op := Fail(status);
        }
      }
    }

    method ReadValue(twsr: bv8, twdr: byte) returns (op: Option<Bus>)
      requires Valid() && mode == READ_VALUE
      modifies this`mode, this`status, this`index, mData
      ensures Valid()
      ensures (View(), op) == Interrupt(old(View()), address, twsr, twdr)
    {
      if !Check(twsr, TW_MR_DATA_ACK) {
        op := Fail(ReadValueError);
      } else {
        mData[index] := twdr;
        index := index + 1;
        if index < max {
          op := Some(Receive);
        } else {
          op := Fail(status);
        }
      }
    }

    /** Stop; no interrupt follows it, so the mode is set here. */
    method Fail(s: Status) returns (op: Option<Bus>)
      modifies this`mode, this`status
      ensures mode == IDLE && status == s && op == Some(Stop)
    {
      status, mode, op := s, IDLE, Some(Stop);
    }

    ghost predicate QueueValid()
      reads queue
    {
      queue.data.Length == QUEUE_SIZE && queue.Valid()
    }

    /** One byte onto the queue; `bytes` are those this request has put there already. */
    method Fill(b: byte, ghost q: Fifo, ghost bytes: seq<byte>)
      requires QueueValid() && |q.contents| + |bytes| < QUEUE_SIZE
      requires queue.View() == Filled(QUEUE_SIZE, q, bytes)
      modifies queue`finish, queue.data
      ensures QueueValid()
      ensures queue.View() == Filled(QUEUE_SIZE, q, bytes + [b])
    {
      FilledExtends(QUEUE_SIZE, q, bytes, b);
      var ok := queue.ByteFill(queue.start, b, 0);
    }

    /** The four bytes that every request starts with. */
    method FillHead(op: byte, id: byte, tag: byte, reg: byte)
      requires QueueValid() && |queue.Contents()| + OVERHEAD <= QUEUE_SIZE
      modifies queue`finish, queue.data
      ensures QueueValid()
      ensures queue.View() == Filled(QUEUE_SIZE, old(queue.View()), [op, id, tag, reg])
    {
      ghost var q := queue.View();
      ghost var none: seq<byte> := [];
      assert none + [op] == [op] && [op] + [id] == [op, id];
      assert [op, id] + [tag] == [op, id, tag] && [op, id, tag] + [reg] == [op, id, tag, reg];
      Fill(op, q, none);
      Fill(id, q, [op]);
      Fill(tag, q, [op, id]);
      Fill(reg, q, [op, id, tag]);
    }

    method FillData(data: array<byte>, len: nat, ghost q: Fifo, ghost head: seq<byte>)
      requires QueueValid() && len <= data.Length && data != queue.data
      requires |q.contents| + |head| + len <= QUEUE_SIZE
      requires queue.View() == Filled(QUEUE_SIZE, q, head)
      modifies queue`finish, queue.data
      ensures QueueValid()
      ensures queue.View() == Filled(QUEUE_SIZE, q, head + data[..len])
    {
      assert head + data[..0] == head;
      for i := 0 to len
        invariant QueueValid()
        invariant queue.View() == Filled(QUEUE_SIZE, q, head + data[..i])
      {
        assert head + data[..i] + [data[i]] == head + data[..i + 1];
        Fill(data[i], q, head + data[..i]);
      }
    }

    method WriteArray(id: byte, tag: byte, len: byte, reg: byte, data: array<byte>) returns (ok: bool)
      requires Valid() && len <= data.Length && data != queue.data
      modifies queue`finish, queue.data
      ensures Valid()
      ensures ok <==> id == 0 && 1 <= len <= 128 && |old(queue.Contents())| + 4 + len <= 255
      ensures var r := Request(true, id, tag, len, reg, data[..len]);
              ok == Accepts(old(View()), r) && View() == Enqueue(old(View()), r)
    {
      var space := queue.Space();
      if id >= TWI_ID_SIZE || len == 0 || len > MAX_LEN || space < len + OVERHEAD {
        return false;
      }
      ghost var r := Request(true, id, tag, len, reg, data[..len]);
      FillPacked(len, id, tag, reg, data);
      assert View() == Enqueue(old(View()), r);
      ok := true;
    }

    method FillPacked(len: byte, id: byte, tag: byte, reg: byte, data: array<byte>)
      requires QueueValid() && len <= data.Length && data != queue.data
      requires |queue.Contents()| + OVERHEAD + len <= QUEUE_SIZE
      modifies queue`finish, queue.data
      ensures QueueValid()
      ensures queue.View()
              == Filled(QUEUE_SIZE, old(queue.View()), Pack(Request(true, id, tag, len, reg, data[..len])))
    {
      ghost var q := queue.View();
      var op := OpByte(len, true);
      FillHead(op, id, tag, reg);
      FillData(data, len, q, [op, id, tag, reg]);
      assert Pack(Request(true, id, tag, len, reg, data[..len])) == [op, id, tag, reg] + data[..len];
    }

    method ReadArray(id: byte, tag: byte, len: byte, reg: byte) returns (ok: bool)
      requires Valid()
      modifies queue`finish, queue.data
      ensures Valid()
      ensures ok <==> id == 0 && 1 <= len <= 128 && |old(queue.Contents())| + 4 <= 255
      ensures var r := Request(false, id, tag, len, reg, []);
              ok == Accepts(old(View()), r) && View() == Enqueue(old(View()), r)
    {
      var space := queue.Space();
      if id >= TWI_ID_SIZE || len == 0 || len > MAX_LEN || space < OVERHEAD {
        return false;
      }
      var op := OpByte(len, false);
      FillHead(op, id, tag, reg);
      assert Pack(Request(false, id, tag, len, reg, [])) == [op, id, tag, reg];
      ok := true;
    }

    method ResetAction()
      requires Valid() && mode == IDLE
      modifies this, mData
      ensures Valid() && View() == ActionReset(old(View()))
    {
      status, action, tag, reg, index, max := Success, ACTION_IDLE, 0, 0, 0, 0;
      for i := 0 to MAX_LEN
        modifies mData
        invariant forall k :: 0 <= k < i ==> mData[k] == 0
      {
        mData[i] := 0;
      }
      assert mData[..] == Zeros();
    }

    /** Takes one byte off the queue, which has had `n` taken off since it was `q`. */
    method Take(ghost q: Fifo, ghost n: nat) returns (got: Option<byte>)
      requires QueueValid() && n <= |q.contents| && queue.View() == DrainedBy(QUEUE_SIZE, q, n)
      modifies queue
      ensures QueueValid()
      ensures got == if n < |q.contents| then Some(q.contents[n]) else None
      ensures queue.View() == DrainedBy(QUEUE_SIZE, q, if n < |q.contents| then n + 1 else n)
    {
      DrainedOnce(QUEUE_SIZE, q, n);
      DrainedSlice(q, n);
      got := queue.ByteDrain();
    }

    method SetAction()
      requires Valid() && mode == IDLE
      modifies this, queue, mData
      ensures Valid() && View() == ActionSet(old(View()))
    {
      ghost var q := queue.View();
      var head := TakeHead(q);
      if head != [] {
        SetHead(head);
        if action == ACTION_WRITE {
          TakeData(q);
        }
      }
    }

    method SetHead(head: seq<byte>)
      requires |head| == OVERHEAD
      modifies this`action, this`index, this`max, this`id, this`tag, this`reg
      ensures action == head[0] % 2 && index == 0 && max == head[0] / 2
      ensures id == head[1] && tag == head[2] && reg == head[3]
    {
      action, index, max, id, tag, reg := head[0] % 2, 0, head[0] / 2, head[1], head[2], head[3];
    }

    /** `head` is what has been taken off the queue since it was `q`. */
    ghost predicate Taken(q: Fifo, head: seq<byte>)
      reads queue, queue.data
      requires QueueValid()
    {
      head <= q.contents && queue.View() == DrainedBy(QUEUE_SIZE, q, |head|)
    }

    /** One more byte, if there is one. */
    method TakeNext(ghost q: Fifo, head: seq<byte>) returns (more: seq<byte>)
      requires QueueValid() && Taken(q, head)
      modifies queue
      ensures QueueValid() && Taken(q, more)
      ensures |more| == if |head| < |q.contents| then |head| + 1 else |head|
    {
      var got := Take(q, |head|);
      more := if got.Some? then head + [got.value] else head;
    }

    /** The four bytes that every request starts with, or none when the queue runs out. */
    method TakeHead(ghost q: Fifo) returns (head: seq<byte>)
      requires QueueValid() && Taken(q, [])
      modifies queue
      ensures QueueValid()
      ensures |q.contents| < OVERHEAD ==> head == [] && Taken(q, q.contents)
      ensures |q.contents| >= OVERHEAD ==> |head| == OVERHEAD && Taken(q, head)
    {
      var op := TakeNext(q, []);
      if |op| < 1 { return []; }
      var id := TakeNext(q, op);
      if |id| < 2 { return []; }
      var tag := TakeNext(q, id);
      if |tag| < 3 { return []; }
      head := TakeNext(q, tag);
      if |head| < 4 { return []; }
    }

    /** One byte of data into mData, if there is one. */
    method TakeDatum(ghost q: Fifo, ghost n: nat, i: nat) returns (ok: bool)
      requires QueueValid() && mData.Length == MAX_LEN && mData != queue.data && i < MAX_LEN
      requires n <= |q.contents| && queue.View() == DrainedBy(QUEUE_SIZE, q, n)
      modifies queue, mData
      ensures QueueValid() && ok == (n < |q.contents|)
      ensures mData[..] == if ok then old(mData[..])[i := q.contents[n]] else old(mData[..])
      ensures queue.View() == DrainedBy(QUEUE_SIZE, q, if ok then n + 1 else n)
    {
      var got := Take(q, n);
      ok := got.Some?;
      if ok {
        mData[i] := got.value;
      }
    }

    method TakeData(ghost q: Fifo)
      requires QueueValid() && mData.Length == MAX_LEN && mData != queue.data && max < MAX_LEN
      requires |q.contents| >= OVERHEAD && queue.View() == DrainedBy(QUEUE_SIZE, q, OVERHEAD)
      modifies queue, mData
      ensures QueueValid()
      ensures var left := |q.contents| - OVERHEAD;
              var n := if max <= left then max else left;
              && mData[..] == Loaded(q.contents, old(mData[..]), n)
              && queue.View() == DrainedBy(QUEUE_SIZE, q, OVERHEAD + n)
    {
      ghost var was := mData[..];
      var i := 0;
      while i < max
        invariant QueueValid() && i <= max && OVERHEAD + i <= |q.contents|
        invariant queue.View() == DrainedBy(QUEUE_SIZE, q, OVERHEAD + i)
        invariant mData[..] == Loaded(q.contents, was, i)
      {
        var ok := TakeDatum(q, OVERHEAD + i, i);
        if !ok {
          return;
        }
        NextDatum(q.contents, was, i);
        i := i + 1;
      }
    }

    /** twi_try; the callback, when there is one, is handed back as a report. */
    method Try() returns (report: Option<Report>)
      requires Valid()
      modifies this, queue, mData
      ensures queue.Valid()
      ensures (View(), report) == Twi.Try(old(View()))
    {
      report := None;
      if mode != IDLE {
        return;
      }
      if action != ACTION_IDLE {
        report := Some(Report(action == ACTION_WRITE, id, tag, status, max,
                              if action == ACTION_WRITE then [] else mData[..max]));
        ResetAction();
        return;
      }
      var size := queue.Size();
      if size > 0 {
        SetAction();
        mode := if action == ACTION_WRITE then WRITE_START else READ_START;
      }
    }
  }

  /** What `n` drains leave, whether or not the ring was topped before. */
  lemma {:induction false} DrainedSlice(q: Fifo, n: nat)
    requires n <= |q.contents|
    ensures DrainedBy(QUEUE_SIZE, q, n).contents == q.contents[n..]
    decreases n
  {
    if n > 0 {
      DrainedSlice(Drained(QUEUE_SIZE, q), n - 1);
    }
  }

  lemma NextDatum(c: seq<byte>, was: seq<byte>, i: nat)
    requires OVERHEAD + i < |c| && i < |was|
    ensures Loaded(c, was, i)[i := c[OVERHEAD + i]] == Loaded(c, was, i + 1)
  {
  }
}
