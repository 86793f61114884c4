/** What the AVR holds a reply back for (src/avr/postpone.c), in bytes: where a reply is written,
    where the next message from the Pi goes, and what happens when there is no room. */
module ReplyRelease {
  import opened Constants
  import opened Framing
  import opened Decoder
  import opened Slave
  import opened Link
  import opened LinkInvariant
  import opened LinkTheorems

  /** The SPI interrupts of a frame clocked in, one for each of its bytes. */
  function Clocked(a: Avr, frame: seq<byte>): Avr
    decreases |frame|
  {
    if frame == [] then a else Clocked(Exchange(a, frame[0]), frame[1..])
  }

  /** The bytes those exchanges send back, and the one that the next exchange would. */
  function SentBack(a: Avr, frame: seq<byte>): seq<byte>
    decreases |frame|
  {
    if frame == [] then [a.spdr] else [a.spdr] + SentBack(Exchange(a, frame[0]), frame[1..])
  }

  /** `n` bytes off a queue that never ends: behind `bytes` comes nothing but 240. */
  function Padded(bytes: seq<byte>, n: nat): (r: seq<byte>)
    ensures |r| == n
    decreases n
  {
    if n == 0 then []
    else if bytes == [] then [240] + Padded(bytes, n - 1)
    else [bytes[0]] + Padded(bytes[1..], n - 1)
  }

  lemma PaddedFirst(b: byte, bytes: seq<byte>, n: nat)
    ensures Padded([b] + bytes, n + 1) == [b] + Padded(bytes, n)
  {
    assert ([b] + bytes)[1..] == bytes;
  }

  lemma PaddedEmpty(n: nat)
    requires n > 0
    ensures Padded([], n) == [240] + Padded([], n - 1)
  {
  }

  lemma ExchangeFits(a: Avr, b: byte, n: nat)
    requires |a.read| < 255
    ensures Exchange(a, b).read == a.read + [b]
    ensures n > 0 ==> Padded(a.write, n) == [Exchange(a, b).spdr] + Padded(Exchange(a, b).write, n - 1)
  {
  }

  /** A frame that fits into read_buf goes there whole, and what comes back is the byte in SPDR,
      the bytes of write_buf and then 240, never SPI_READ_OVERFLOW. */
  lemma {:induction false} FrameFits(a: Avr, frame: seq<byte>)
    requires |a.read| + |frame| <= 255
    ensures Clocked(a, frame).read == a.read + frame
    ensures SentBack(a, frame) == [a.spdr] + Padded(a.write, |frame|)
    decreases |frame|
  {
    if frame == [] {
      assert a.read + frame == a.read;
    } else {
      var a1 := Exchange(a, frame[0]);
      ExchangeFits(a, frame[0], |frame|);
      FrameFits(a1, frame[1..]);
      assert (a.read + [frame[0]]) + frame[1..] == a.read + frame;
    }
  }

  /** Once a reply is released, a frame of up to 26 bytes that the Pi clocks in before anything is
      read from read_buf arrives whole, and the Pi gets back what write_buf held, then the reply. */
  lemma ReplyLeavesRoom(a: Avr, frame: seq<byte>)
    requires PostponeTry(a) != a && |frame| <= 26
    ensures Clocked(PostponeTry(a), frame).read == a.read + frame
    ensures |a.slot| <= 26 ==>
              SentBack(PostponeTry(a), frame) == [a.spdr] + Padded(a.write + a.slot, |frame|)
  {
    FrameFits(PostponeTry(a), frame);
  }

  /** In every state a run reaches, a reply leaves the slot exactly when each of the three buffers
      holds 229 bytes at most; it is then written whole and IRQ is high, and else nothing changes. */
  lemma ReleaseExactly(s: State, h: History)
    requires Reached(s, h) && s.avr.slot != []
    ensures var a1 := Next(s, AvrReleases).avr;
            && (a1.slot == [] <==> |s.avr.write| <= 229 && |s.avr.read| <= 229 && |s.avr.shift| <= 229)
            && a1 == if a1.slot == [] then s.avr.(write := s.avr.write + s.avr.slot, slot := [], irq := true)
                     else s.avr
  {
    ReachedInv(s, h);
  }

  /** A message of the AVR's own is written whole, or dropped for good, by write_buf alone. */
  lemma SendExactly(s: State, id: byte, payload: seq<byte>)
    requires |payload| <= 8
    ensures var a1 := Next(s, AvrSends(id, payload)).avr;
            a1 == if |s.avr.write| <= 229
                  then s.avr.(write := s.avr.write + ([250, |payload| as byte + 2, 0, id] + payload), irq := true)
                  else s.avr
  {
    var m := Msg(SERIAL_ID_TO_IGNORE, id, payload);
    assert Wire(m) == [250, |payload| as byte + 2, 0, id] + payload;
  }

  /** A byte that comes when read_buf is full is lost: nothing is sent in exchange for it, IRQ stays
      as it is, and the 245 that the next exchange returns means nothing to a parser between frames. */
  lemma OverflowLoses(a: Avr, b: byte)
    requires |a.read| == 255
    ensures Exchange(a, b) == a.(spdr := 245)
    ensures Push([], Exchange(a, b).spdr) == ([], None)
  {
  }

  /** A reply goes to the slot if that is free, and never replaces the one that is there. */
  lemma SlotHolds(a: Avr, msg: seq<byte>, serial: byte)
    requires serial != 0
    ensures PostponeMessage(a, msg, serial) == if a.slot == [] then a.(slot := msg) else a
  {
  }

  /** What the AVR has to say when a run begins: VERSION, which is 1, with IRQ raised. */
  lemma VersionFirst(s: State)
    requires Initial(s)
    ensures s.avr.irq && s.avr.write == [250, 3, 0, 14, 1]
  {
  }

  /** The reply in full: 0 for LED_ARRAY and SYNC_CLOCK, 0 or 1 for the answer to a query as the menu
      took it or not, 2 for anything else. */
  lemma ReplyBytes(s: State, h: History, answered: bool)
    requires Reached(s, h) && Decodes(s.avr).Some? && Decodes(s.avr).value.serial != 0
    ensures var m := Decodes(s.avr).value;
            var code: byte := if m.id in {4, 13} then 0 else if m.id !in {7, 8} then 2 else if answered then 0 else 1;
            ReadStep(s.avr, answered).slot == [250, 4, m.serial, 11, code, m.id]
  {
    StatusSays(s, h, answered);
  }

  /** The display shows 64 columns and then drops the first; with fewer it shows nothing. */
  lemma DisplayExactly(a: Avr)
    ensures ShiftDisplay(a).shift == if |a.shift| >= 64 then a.shift[1..] else a.shift
    ensures ShiftDisplay(a) == a.(shift := ShiftDisplay(a).shift)
  {
  }
}
