/** Frames on the wire and the Pi's side of framing: src/pi/mcu-encode.hpp,
    src/pi/mcu-decode.hpp and src/pi/mcu-parse.cpp. */
module Framing {
  import opened Constants

  datatype Msg = Msg(serial: byte, id: byte, payload: seq<byte>)

  function Body(m: Msg): seq<byte> {
    [m.serial, m.id] + m.payload
  }

  /** EYE_CATCH | size | body; the size is a byte, so it is the length modulo 256. */
  function Frame(body: seq<byte>): seq<byte> {
    [EYE_CATCH, (|body| % 256) as byte] + body
  }

  function Wire(m: Msg): seq<byte> {
    Frame(Body(m))
  }

  // ----- building a message: join and wrap -----

  datatype Part = One(b: byte) | Many(bytes: seq<byte>)

  function PartBytes(parts: seq<Part>): seq<byte> {
    if parts == [] then []
    else (if parts[0].One? then [parts[0].b] else parts[0].bytes) + PartBytes(parts[1..])
  }

  /** Appends the payload arguments one by one, as the recursion over the argument pack does. */
  method DoJoin(msg: seq<byte>, parts: seq<Part>) returns (joined: seq<byte>)
    ensures joined == msg + PartBytes(parts)
    decreases |parts|
  {
    if parts == [] {
      return msg;
    }
    joined := msg + if parts[0].One? then [parts[0].b] else parts[0].bytes;
    joined := DoJoin(joined, parts[1..]);
  }

  method Join(serial: byte, id: byte, parts: seq<Part>) returns (msg: seq<byte>)
    ensures msg == Body(Msg(serial, id, PartBytes(parts)))
  {
    msg := [];
    msg := msg + [serial];
    msg := msg + [id];
    msg := DoJoin(msg, parts);
  }

  method WrapMsg(msg: seq<byte>) returns (wrapped: seq<byte>)
    ensures wrapped == Frame(msg)
  {
    wrapped := [(|msg| % 256) as byte] + msg;
    wrapped := [EYE_CATCH] + wrapped;
  }

  // ----- taking a message apart -----

  function FromCatch(buf: seq<byte>): (r: seq<byte>)
    ensures r != [] ==> r[0] == EYE_CATCH
  {
    if buf == [] || buf[0] == EYE_CATCH then buf else FromCatch(buf[1..])
  }

  function Complete(buf: seq<byte>): bool {
    |buf| >= 4 && buf[1] <= |buf| - 2
  }

  /** Drops bytes up to an eye-catch; on a complete frame drops its first two bytes too. */
  method Unwrap(buf: seq<byte>) returns (ok: bool, rest: seq<byte>)
    ensures ok == Complete(FromCatch(buf))
    ensures rest == if ok then FromCatch(buf)[2..] else FromCatch(buf)
  {
    rest := buf;
    while rest != [] && rest[0] != EYE_CATCH
      invariant FromCatch(rest) == FromCatch(buf)
      decreases |rest|
    {
      rest := rest[1..];
    }
    if rest == [] {
      return false, rest;
    }
    if |rest| < 4 {
      return false, rest;
    }
    if rest[1] > |rest| - 2 {
      return false, rest;
    }
    rest := rest[1..];
    rest := rest[1..];
    return true, rest;
  }

  /** The first two bytes of a message, when it has them. */
  function Split(msg: seq<byte>): (r: Option<Msg>)
    ensures r.Some? <==> |msg| >= 2
    ensures r.Some? ==> Body(r.value) == msg
  {
    if |msg| < 2 then None else Some(Msg(msg[0], msg[1], msg[2..]))
  }

  // ----- byte-wise parsing -----

  /** One byte into the parser: the bytes it keeps and the message it completes, if any. */
  function Push(buf: seq<byte>, info: byte): (seq<byte>, Option<seq<byte>>) {
    if buf == [] && (info == SPI_WRITE_UNDERFLOW || info == SPI_READ_OVERFLOW) then ([], None)
    else
      var kept := FromCatch(buf + [info]);
      if Complete(kept) then ([], Some(kept[2..])) else (kept, None)
  }

  class McuParse {
    var buf: seq<byte>

    constructor ()
      ensures buf == []
    {
      buf := [];
    }

    method PushByte(info: byte) returns (msg: Option<seq<byte>>)
      modifies this
      ensures (buf, msg) == Push(old(buf), info)
    {
      if buf == [] {
        if info == SPI_WRITE_UNDERFLOW {
          return None;
        }
        if info == SPI_READ_OVERFLOW {
          return None;
        }
      }
      buf := buf + [info];
      var ok, rest := Unwrap(buf);
      buf := rest;
      if !ok {
        return None;
      }
      msg := Some(buf);
      buf := [];
    }
  }

  function Feed(buf: seq<byte>, bytes: seq<byte>): (seq<byte>, seq<seq<byte>>)
    decreases |bytes|
  {
    if bytes == [] then (buf, [])
    else
      var (buf1, msg) := Push(buf, bytes[0]);
      var (buf2, rest) := Feed(buf1, bytes[1..]);
      (buf2, (if msg.Some? then [msg.value] else []) + rest)
  }

  // ----- an independent reading of a byte stream -----

  /** The length on the wire of the frame that starts `bytes`. */
  function FrameLength(bytes: seq<byte>): nat
    requires |bytes| >= 2
  {
    if bytes[1] < 2 then 4 else bytes[1] as int + 2
  }

  /** `bytes` starts with a whole frame. */
  predicate Whole(bytes: seq<byte>) {
    |bytes| >= 2 && bytes[0] == EYE_CATCH && FrameLength(bytes) <= |bytes|
  }

  /** The message bodies in a stream, read frame by frame; bytes between frames are skipped. */
  function Scan(bytes: seq<byte>): (bodies: seq<seq<byte>>)
    decreases |bytes|
  {
    if bytes == [] then []
    else if bytes[0] != EYE_CATCH then Scan(bytes[1..])
    else if Whole(bytes) then
      [bytes[2..FrameLength(bytes)]] + Scan(bytes[FrameLength(bytes)..])
    else []
  }

  /** The unfinished frame a stream ends with. */
  function Unfinished(bytes: seq<byte>): (tail: seq<byte>)
    ensures tail != [] ==> tail[0] == EYE_CATCH
    ensures !Whole(tail) && |tail| <= |bytes|
    decreases |bytes|
  {
    if bytes == [] then []
    else if bytes[0] != EYE_CATCH then Unfinished(bytes[1..])
    else if Whole(bytes) then Unfinished(bytes[FrameLength(bytes)..])
    else bytes
  }

  /** What the parser holds between pushes. */
  predicate Partial(buf: seq<byte>) {
    (buf == [] || buf[0] == EYE_CATCH) && !Whole(buf)
  }

  lemma {:induction false} FeedConcat(buf: seq<byte>, a: seq<byte>, b: seq<byte>)
    ensures Feed(buf, a + b).0 == Feed(Feed(buf, a).0, b).0
    ensures Feed(buf, a + b).1 == Feed(buf, a).1 + Feed(Feed(buf, a).0, b).1
    decreases |a|
  {
    if a == [] {
      assert a + b == b;
    } else {
      assert (a + b)[0] == a[0] && (a + b)[1..] == a[1..] + b;
      var (kept, msg) := Push(buf, a[0]);
      var first := if msg.Some? then [msg.value] else [];
      FeedConcat(kept, a[1..], b);
      var later := Feed(Feed(kept, a[1..]).0, b).1;
      assert first + (Feed(kept, a[1..]).1 + later) == (first + Feed(kept, a[1..]).1) + later;
    }
  }

  /** On a partial frame, one byte either completes the frame or is kept. */
  lemma PushPartial(buf: seq<byte>, info: byte)
    requires Partial(buf)
    ensures Partial(Push(buf, info).0)
    ensures buf == [] && info != EYE_CATCH ==> Push(buf, info) == ([], None)
    ensures (buf != [] || info == EYE_CATCH) ==>
              Push(buf, info) == if Whole(buf + [info]) then ([], Some((buf + [info])[2..]))
                                 else (buf + [info], None)
    ensures Whole(buf + [info]) ==> FrameLength(buf + [info]) == |buf| + 1
  {
    if buf == [] {
      assert buf + [info] == [info] && [info][1..] == [];
      assert info != EYE_CATCH ==> FromCatch([info]) == FromCatch([info][1..]) == [];
    }
  }

  lemma SplitByte(buf: seq<byte>, bytes: seq<byte>)
    requires bytes != []
    ensures buf + bytes == (buf + [bytes[0]]) + bytes[1..]
  {
  }

  /** A pushed byte takes from the stream what the reference reads. */
  lemma PushScans(buf: seq<byte>, info: byte, rest: seq<byte>)
    requires Partial(buf)
    ensures var (kept, msg) := Push(buf, info);
            var all := (buf + [info]) + rest;
            && Scan(all) == (if msg.Some? then [msg.value] else []) + Scan(kept + rest)
            && Unfinished(all) == Unfinished(kept + rest)
  {
    PushPartial(buf, info);
    var (kept, msg) := Push(buf, info);
    var head := buf + [info];
    var all := head + rest;
    if buf == [] && info != EYE_CATCH {
      assert all[1..] == kept + rest;
    } else if msg.Some? {
      var n := |head|;
      assert FrameLength(all) == n && all[2..n] == head[2..] && all[n..] == kept + rest;
    }
  }

  /** The parser reads every byte stream whatsoever exactly as the reference does, however
      it is cut, and between bytes keeps nothing but the start of a frame. */
  lemma {:induction false} ParserScans(buf: seq<byte>, bytes: seq<byte>)
    requires Partial(buf)
    ensures Feed(buf, bytes).1 == Scan(buf + bytes)
    ensures Feed(buf, bytes).0 == Unfinished(buf + bytes)
    ensures Partial(Feed(buf, bytes).0)
    decreases |bytes|
  {
    if bytes == [] {
      assert buf + bytes == buf;
    } else {
      SplitByte(buf, bytes);
      PushPartial(buf, bytes[0]);
      PushScans(buf, bytes[0], bytes[1..]);
      ParserScans(Push(buf, bytes[0]).0, bytes[1..]);
    }
  }

  /** A parser buffer is empty or the beginning of a frame, shorter than max(4, size + 2). */
  lemma BufferBound(bytes: seq<byte>)
    ensures var buf := Feed([], bytes).0;
            && (buf == [] || buf[0] == EYE_CATCH)
            && (|buf| >= 2 ==> |buf| < if buf[1] <= 2 then 4 else buf[1] as int + 2)
  {
    ParserScans([], bytes);
  }

  // ----- what senders put on the wire -----

  /** A byte between frames, or a frame. */
  datatype Item = Noise(b: byte) | Framed(body: seq<byte>)

  function ItemBytes(item: Item): seq<byte> {
    if item.Noise? then [item.b] else Frame(item.body)
  }

  function Stream(items: seq<Item>): seq<byte> {
    if items == [] then [] else ItemBytes(items[0]) + Stream(items[1..])
  }

  function Bodies(items: seq<Item>): seq<seq<byte>> {
    if items == [] then []
    else (if items[0].Framed? then [items[0].body] else []) + Bodies(items[1..])
  }

  predicate GoodItem(item: Item) {
    if item.Noise? then item.b != EYE_CATCH else 2 <= |item.body| <= 255
  }

  predicate GoodItems(items: seq<Item>) {
    forall i | 0 <= i < |items| :: GoodItem(items[i])
  }

  lemma WholeFrame(body: seq<byte>, rest: seq<byte>)
    requires 2 <= |body| <= 255
    ensures var all := Frame(body) + rest;
            Whole(all) && FrameLength(all) == |body| + 2 && all[2..|body| + 2] == body
            && all[|body| + 2..] == rest
  {
  }

  lemma ScanItem(item: Item, later: seq<byte>)
    requires GoodItem(item)
    ensures Scan(ItemBytes(item) + later) == (if item.Framed? then [item.body] else []) + Scan(later)
    ensures Unfinished(ItemBytes(item) + later) == Unfinished(later)
  {
    if item.Framed? {
      WholeFrame(item.body, later);
    } else {
      assert ([item.b] + later)[1..] == later;
    }
  }

  lemma {:induction false} ScanStream(items: seq<Item>, rest: seq<byte>)
    requires GoodItems(items)
    ensures Scan(Stream(items) + rest) == Bodies(items) + Scan(rest)
    ensures Unfinished(Stream(items) + rest) == Unfinished(rest)
    decreases |items|
  {
    if items == [] {
      assert Stream(items) + rest == rest;
    } else {
      ScanStream(items[1..], rest);
      StreamStep(items, rest);
      BodiesStep(items, Scan(rest));
      ScanItem(items[0], Stream(items[1..]) + rest);
    }
  }

  lemma StreamStep(items: seq<Item>, rest: seq<byte>)
    requires items != []
    ensures Stream(items) + rest == ItemBytes(items[0]) + (Stream(items[1..]) + rest)
  {
  }

  lemma BodiesStep(items: seq<Item>, rest: seq<seq<byte>>)
    requires items != []
    ensures Bodies(items) + rest
            == (if items[0].Framed? then [items[0].body] else []) + (Bodies(items[1..]) + rest)
  {
  }

  lemma ScanAll(items: seq<Item>)
    requires GoodItems(items)
    ensures Scan(Stream(items)) == Bodies(items) && Unfinished(Stream(items)) == []
  {
    ScanStream(items, []);
    assert Stream(items) + [] == Stream(items) && Bodies(items) + [] == Bodies(items);
    assert Scan([]) == [];
  }

  /** Round trip: messages of length 2..255 with any payload, framed and separated by any
      bytes that are not the eye-catch, come out of the parser exactly, in order, leaving it
      empty. */
  lemma RoundTrip(items: seq<Item>)
    requires GoodItems(items)
    ensures Feed([], Stream(items)) == ([], Bodies(items))
  {
    ParserScans([], Stream(items));
    ScanAll(items);
    assert [] + Stream(items) == Stream(items);
  }

  /** Whatever part of such a stream has arrived, the messages out so far are the first ones. */
  lemma PrefixOut(buf: seq<byte>, all: seq<byte>, n: nat)
    requires n <= |all|
    ensures Feed(buf, all[..n]).1 <= Feed(buf, all).1
  {
    var cut, more := all[..n], all[n..];
    assert cut + more == all;
    FeedConcat(buf, cut, more);
  }
}
