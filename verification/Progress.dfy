/** A reply that the AVR has written is on its way for good: whatever else happens, every byte of it
    that is exchanged and every byte that the Pi parses bring it nearer, and nothing takes it back. */
module Progress {
  import opened Constants
  import opened Framing
  import opened Slave
  import opened Link
  import opened LinkInvariant
  import opened LinkProof
  import opened LinkTheorems
  import opened Liveness
  import opened Answering

  /** A frame with a serial id is on its way to the Pi. */
  predicate Awaits(items: seq<Item>) {
    BodySerials(Bodies(items)) != []
  }

  predicate Answers(item: Item) {
    item.Framed? && BodySerial(item.body) != []
  }

  /** The bytes up to the end of the first such frame. */
  function Distance(items: seq<Item>): nat {
    if items == [] then 0
    else |ItemBytes(items[0])| + if Answers(items[0]) then 0 else Distance(items[1..])
  }

  lemma AwaitsFirst(items: seq<Item>)
    requires items != []
    ensures Awaits(items) <==> Answers(items[0]) || Awaits(items[1..])
  {
    if items[0].Framed? {
      assert Bodies(items)[1..] == Bodies(items[1..]);
    } else {
      assert Bodies(items) == Bodies(items[1..]);
    }
  }

  lemma {:induction false} DistanceMore(items: seq<Item>, item: Item)
    requires Awaits(items)
    ensures Awaits(items + [item]) && Distance(items + [item]) == Distance(items)
    decreases |items|
  {
    AwaitsFirst(items);
    AwaitsFirst(items + [item]);
    assert (items + [item])[1..] == items[1..] + [item];
    if !Answers(items[0]) {
      DistanceMore(items[1..], item);
    }
  }

  function Min(a: int, b: int): int {
    if a <= b then a else b
  }

  /** Twice the bytes of the reply still on the AVR, and its bytes on the Pi not yet parsed. */
  function Rank(items: seq<Item>, buf: nat, incoming: nat): int {
    var d := Distance(items);
    (if d > incoming then 2 * (d - incoming) else 0) + Min(incoming - buf, d - buf)
  }

  function RankOf(s: State, h: History): int {
    Rank(h.items, |s.pi.buf|, |Incoming(s.pi)|)
  }

  /** A byte of the reply exchanged, or a byte parsed. */
  predicate Useful(s: State, h: History, action: Action) {
    (action.PiMoves? && s.pi.pc.Parse? && s.pi.pc.got != [])
    || (action.ByteExchange? && Distance(h.items) > |Incoming(s.pi)|)
  }

  // ----- one step -----

  lemma FrameInside(buf: seq<byte>, body: seq<byte>, later: seq<byte>)
    requires 2 <= |body| <= 255 && buf <= Frame(body) + later && |buf| >= |body| + 2
    ensures Whole(buf)
  {
    WholeFrame(body, later);
    var all := Frame(body) + later;
    assert buf[0] == all[0] && buf[1] == all[1];
  }

  /** The parser's buffer ends inside the first item. */
  lemma BufInside(buf: seq<byte>, rest: seq<byte>, items: seq<Item>)
    requires rest != [] && buf + rest == Stream(items) && GoodItems(items) && Partial(buf)
    ensures items != [] && |buf| < |ItemBytes(items[0])|
  {
    assert items != [];
    var later := Stream(items[1..]);
    assert buf + rest == ItemBytes(items[0]) + later;
    assert buf <= buf + rest;
    assert buf != [] ==> buf[0] == (ItemBytes(items[0]) + later)[0];
    if items[0].Framed? && |buf| >= |items[0].body| + 2 {
      FrameInside(buf, items[0].body, later);
    }
  }

  lemma RankBounded(s: State, h: History)
    requires RepliesInv(s, h) && Awaits(h.items)
    ensures RankOf(s, h) >= 0 && Distance(h.items) > |s.pi.buf|
  {
    var rest := Returning(s)[|s.pi.buf|..];
    assert Returning(s) == s.pi.buf + rest;
    BufInside(s.pi.buf, rest, h.items);
  }

  /** The item that a byte completes is as long as what was in the buffer and the byte. */
  lemma ItemDone(buf: seq<byte>, b: byte, rest: seq<byte>, items: seq<Item>)
    requires buf + [b] + rest == Stream(items) && GoodItems(items) && Partial(buf) && Push(buf, b).0 == []
    ensures items != [] && |ItemBytes(items[0])| == |buf| + 1
    ensures Push(buf, b).1 == if items[0].Framed? then Some(items[0].body) else None
  {
    TakeReply(buf, b, rest, items);
    var left := items[1..];
    assert |Stream(items)| == |ItemBytes(items[0])| + |Stream(left)|;
    assert |[] + rest| == |rest|;
    var msg := Push(buf, b).1;
    assert Bodies(items) == (if items[0].Framed? then [items[0].body] else []) + Bodies(left);
    if items[0].Framed? {
      assert Bodies(items) == [items[0].body] + Bodies(left);
      assert |Bodies(items)| == 1 + |Bodies(left)|;
      assert msg.Some?;
      assert ([msg.value] + Bodies(left))[0] == ([items[0].body] + Bodies(left))[0];
    } else {
      assert |Bodies(items)| == |Bodies(left)|;
    }
  }

  lemma RankParse(items: seq<Item>, left: seq<Item>, buf: nat, kept: nat, incoming: nat)
    requires items != [] && Awaits(items) && incoming > buf && Distance(items) > buf
    requires if left == items then kept == buf + 1
             else left == items[1..] && kept == 0 && |ItemBytes(items[0])| == buf + 1 && !Answers(items[0])
    ensures Awaits(left)
    ensures Rank(left, kept, incoming - if left == items then 0 else buf + 1) < Rank(items, buf, incoming)
  {
    AwaitsFirst(items);
  }

  /** What is left of the items and the buffer when a byte has been parsed. */
  lemma ParseItems(buf: seq<byte>, b: byte, rest: seq<byte>, items: seq<Item>)
    requires buf + [b] + rest == Stream(items) && GoodItems(items) && Partial(buf)
    ensures items != []
    ensures var kept := Push(buf, b).0;
            var left := ItemsAfter(items, buf, b);
            if kept == [] then left == items[1..] && |ItemBytes(items[0])| == |buf| + 1
            else left == items && |kept| == |buf| + 1
    ensures Answers(items[0]) && Push(buf, b).0 == [] ==>
              Push(buf, b).1.Some? && Push(buf, b).1.value != [] && Push(buf, b).1.value[0] != SERIAL_ID_TO_IGNORE
  {
    TakeReply(buf, b, rest, items);
    PushPartial(buf, b);
    if Push(buf, b).0 == [] {
      ItemDone(buf, b, rest, items);
    }
  }

  /** The Pi after a byte parsed. */
  lemma ParsedPi(s: State, h: History)
    requires RepliesInv(s, h) && TokenInv(s, h) && s.pi.pc.Parse? && s.pi.pc.got != []
    ensures var (kept, msg) := Push(s.pi.buf, s.pi.pc.got[0]);
            var pi := PiRun(s.pi);
            && pi.buf == kept && Incoming(pi) == kept + s.pi.pc.got[1..]
            && (msg.Some? && msg.value[0] != SERIAL_ID_TO_IGNORE ==> pi.pending == SERIAL_ID_TO_IGNORE)
  {
    ParseGoesOn(s, h);
    PushSize(s.pi.buf, s.pi.pc.got[0]);
    ParseRuns(s.pi);
  }

  lemma PushSize(buf: seq<byte>, b: byte)
    requires Partial(buf)
    ensures Push(buf, b).1.Some? ==> |Push(buf, b).1.value| >= 2
  {
    PushPartial(buf, b);
  }

  /** One byte parsed: the reply is in, or nearer. */
  lemma ParseForced(s: State, h: History)
    requires Inv(s, h) && Awaits(h.items) && s.pi.pc.Parse? && s.pi.pc.got != []
    ensures var s1, h1 := Next(s, PiMoves), Note(s, h, PiMoves);
            s1.pi.pending == SERIAL_ID_TO_IGNORE || (Awaits(h1.items) && RankOf(s1, h1) < RankOf(s, h))
  {
    var b, got := s.pi.pc.got[0], s.pi.pc.got;
    Regroup(s.pi.buf, got, s.avr.spdr, s.avr.write);
    ParseItems(s.pi.buf, b, got[1..] + [s.avr.spdr] + s.avr.write, h.items);
    ParsedPi(s, h);
    RankBounded(s, h);
    var kept := Push(s.pi.buf, b).0;
    if kept != [] || !Answers(h.items[0]) {
      RankParse(h.items, ItemsAfter(h.items, s.pi.buf, b), |s.pi.buf|, |kept|, |Incoming(s.pi)|);
    }
  }

  /** Steps that touch neither the items nor what the Pi has received. */
  predicate Untouched(s: State, h: History, s1: State, h1: History) {
    h1.items == h.items && Incoming(s1.pi) == Incoming(s.pi) && s1.pi.buf == s.pi.buf
  }

  lemma ExchangeForced(s: State, h: History)
    requires Inv(s, h) && Awaits(h.items) && Enabled(s, ByteExchange)
    ensures var s1, h1 := Next(s, ByteExchange), Note(s, h, ByteExchange);
            && Awaits(h1.items) && RankOf(s1, h1) <= RankOf(s, h)
            && (Distance(h.items) > |Incoming(s.pi)| ==> RankOf(s1, h1) < RankOf(s, h))
  {
    ExchangeEffect(s, h);
    RankBounded(s, h);
    ExchangeItems(s, h);
    RankExchange(h.items, Note(s, h, ByteExchange).items, |s.pi.buf|, |Incoming(s.pi)|);
  }

  lemma ExchangeItems(s: State, h: History)
    requires Awaits(h.items) && Enabled(s, ByteExchange)
    ensures var items := Note(s, h, ByteExchange).items; Awaits(items) && Distance(items) == Distance(h.items)
  {
    if s.avr.write == [] {
      DistanceMore(h.items, Noise(SPI_WRITE_UNDERFLOW));
    } else {
      assert h.items + [] == h.items;
    }
  }

  lemma RankExchange(items: seq<Item>, items1: seq<Item>, buf: nat, incoming: nat)
    requires Distance(items1) == Distance(items) && incoming >= buf
    ensures Rank(items1, buf, incoming + 1) <= Rank(items, buf, incoming)
    ensures Distance(items) > incoming ==> Rank(items1, buf, incoming + 1) < Rank(items, buf, incoming)
  {
  }

  lemma WriteForced(s: State, h: History, action: Action)
    requires Awaits(h.items) && Enabled(s, action) && (action.AvrReleases? || action.AvrSends?)
    ensures var s1, h1 := Next(s, action), Note(s, h, action);
            Awaits(h1.items) && RankOf(s1, h1) == RankOf(s, h)
  {
    var bodies := Writes(s.avr, action);
    if bodies != [] {
      assert bodies == [bodies[0]];
      OneFrame(bodies[0]);
      DistanceMore(h.items, Framed(bodies[0]));
    } else {
      assert h.items + Frames(bodies) == h.items;
    }
  }

  lemma QuietForced(s: State, h: History, action: Action)
    requires Enabled(s, action) && !action.ByteExchange? && Writes(s.avr, action) == []
    requires action.PiMoves? ==> !(s.pi.pc.Parse? && s.pi.pc.got != [])
    ensures RankOf(Next(s, action), Note(s, h, action)) == RankOf(s, h) && Note(s, h, action).items == h.items
  {
    QuietNotes(s, h, action);
    QuietIncoming(s, action);
  }

  /** Whatever step is taken while a reply is on its way, the Pi has it, or it is still on its way
      and no farther; and nearer after a useful step. */
  lemma Forced(s: State, h: History, action: Action)
    requires Inv(s, h) && Awaits(h.items) && Enabled(s, action)
    ensures var s1, h1 := Next(s, action), Note(s, h, action);
            || s1.pi.pending == SERIAL_ID_TO_IGNORE
            || (Awaits(h1.items) && RankOf(s1, h1) <= RankOf(s, h) - if Useful(s, h, action) then 1 else 0)
  {
    match action
    case PiMoves =>
      if s.pi.pc.Parse? && s.pi.pc.got != [] {
        ParseForced(s, h);
      } else {
        QuietForced(s, h, action);
      }
    case ByteExchange => ExchangeForced(s, h);
    case AvrReleases => WriteForced(s, h, action);
    case AvrSends(_, _) => WriteForced(s, h, action);
    case _ => QuietForced(s, h, action);
  }

  // ----- every run -----

  /** How many useful steps a run takes. */
  function UsefulSteps(s: State, h: History, actions: seq<Action>): nat
    requires Legal(s, actions)
    decreases |actions|
  {
    if actions == [] then 0
    else
      (if Useful(s, h, actions[0]) then 1 else 0)
      + UsefulSteps(Next(s, actions[0]), Note(s, h, actions[0]), actions[1..])
  }

  /** The first step of a run that has more useful steps than the reply's rank. */
  lemma ForcedFirst(s: State, h: History, actions: seq<Action>)
    requires Inv(s, h) && Awaits(h.items) && Legal(s, actions) && UsefulSteps(s, h, actions) > RankOf(s, h)
    ensures actions != []
    ensures var s1, h1 := Next(s, actions[0]), Note(s, h, actions[0]);
            || s1.pi.pending == SERIAL_ID_TO_IGNORE
            || (Awaits(h1.items) && UsefulSteps(s1, h1, actions[1..]) > RankOf(s1, h1))
  {
    RankBounded(s, h);
    Forced(s, h, actions[0]);
  }

  lemma PrefixMore(s: State, h: History, actions: seq<Action>, m: nat)
    requires Legal(s, actions) && actions != [] && m <= |actions[1..]|
    requires Legal(Next(s, actions[0]), actions[1..][..m])
    ensures Legal(s, actions[..m + 1])
    ensures Run(s, actions[..m + 1]) == Run(Next(s, actions[0]), actions[1..][..m])
  {
    Cons(s, h, actions[0], actions[1..][..m]);
    assert actions[..m + 1] == [actions[0]] + actions[1..][..m];
  }

  lemma ForcedOnce(s: State, h: History, actions: seq<Action>) returns (s1: State, h1: History)
    requires Inv(s, h) && Awaits(h.items) && Legal(s, actions) && UsefulSteps(s, h, actions) > RankOf(s, h)
    ensures actions != [] && s1 == Next(s, actions[0]) && Inv(s1, h1) && Legal(s1, actions[1..])
    ensures s1.pi.pending == SERIAL_ID_TO_IGNORE
            || (Awaits(h1.items) && UsefulSteps(s1, h1, actions[1..]) > RankOf(s1, h1))
  {
    ForcedFirst(s, h, actions);
    StepKeeps(s, h, actions[0]);
    s1, h1 := Next(s, actions[0]), Note(s, h, actions[0]);
  }

  lemma {:induction false} ForcedRun(s: State, h: History, actions: seq<Action>) returns (n: nat)
    requires Inv(s, h) && Awaits(h.items) && Legal(s, actions)
    requires UsefulSteps(s, h, actions) > RankOf(s, h)
    ensures n <= |actions| && Legal(s, actions[..n]) && Run(s, actions[..n]).pi.pending == SERIAL_ID_TO_IGNORE
    decreases |actions|
  {
    var s1, h1 := ForcedOnce(s, h, actions);
    var m := 0;
    if s1.pi.pending != SERIAL_ID_TO_IGNORE {
      m := ForcedRun(s1, h1, actions[1..]);
    }
    PrefixMore(s, h, actions, m);
    n := m + 1;
  }

  /** Every run, in whatever order its steps come and whatever the AVR, the user and the other
      threads do meanwhile, that exchanges and parses more bytes than the reply's rank has the
      reply parsed on the way: once written, a reply can be delayed only by standing still. */
  lemma WrittenReplyArrives(s: State, h: History, actions: seq<Action>) returns (n: nat)
    requires Reached(s, h) && Awaits(h.items) && Legal(s, actions)
    requires UsefulSteps(s, h, actions) > RankOf(s, h)
    ensures n <= |actions| && Legal(s, actions[..n]) && Run(s, actions[..n]).pi.pending == SERIAL_ID_TO_IGNORE
  {
    ReachedInv(s, h);
    n := ForcedRun(s, h, actions);
  }
}
