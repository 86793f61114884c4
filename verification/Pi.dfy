/** The Pi's link code on its own fields: src/util/condition-queue.hpp, src/pi/mcu-block.cpp,
    src/pi/mcu-id.hpp and src/pi/mcu-handle.cpp. */
module PiObjects {
  import opened Constants
  import opened Framing
  import opened Link
  import opened LinkInvariant
  import opened Sequences

  /** A condition variable with its one waiter. */
  class Condition {
    var waiting: bool
    var notified: bool

    constructor ()
      ensures !waiting && !notified
    {
      waiting, notified := false, false;
    }

    method NotifyOne()
      modifies this
      ensures waiting == old(waiting) && notified == (old(notified) || waiting)
    {
      if waiting {
        notified := true;
      }
    }
  }

  class ConditionQueue<T> {
    var queue: seq<T>
    const condition: Condition

    constructor (condition: Condition)
      ensures queue == [] && this.condition == condition
    {
      queue := [];
      this.condition := condition;
    }

    /** Notifies on the empty edge only. */
    method Push(record: T)
      modifies this, condition
      ensures queue == old(queue) + [record]
      ensures condition.waiting == old(condition.waiting)
      ensures condition.notified == (old(condition.notified) || (condition.waiting && old(queue) == []))
    {
      var empty := |queue| == 0;
      queue := queue + [record];
      if empty {
        condition.NotifyOne();
      }
    }

    method Pop() returns (record: Option<T>)
      modifies this
      ensures old(queue) == [] ==> record == None && queue == []
      ensures old(queue) != [] ==> record == Some(old(queue)[0]) && queue == old(queue)[1..]
    {
      if |queue| == 0 {
        return None;
      }
      record := Some(queue[0]);
      queue := queue[1..];
    }
  }

  class McuBlock {
    var pendingId: byte

    constructor ()
      ensures pendingId == SERIAL_ID_TO_IGNORE
    {
      pendingId := SERIAL_ID_TO_IGNORE;
    }

    predicate IsEngaged()
      reads this
    {
      pendingId != SERIAL_ID_TO_IGNORE
    }

    method Engage(id: byte)
      modifies this
      ensures pendingId == Link.Engage(old(pendingId), id)
      ensures pendingId == if id != 0 && old(pendingId) in {0, id} then id else old(pendingId)
    {
      if id == SERIAL_ID_TO_IGNORE {
        return;
      }
      if IsEngaged() && pendingId != id {
        return;
      }
      pendingId := id;
    }

    method Relax(id: byte) returns (ok: bool)
      modifies this
      ensures ok == Link.Relax(old(pendingId), id).Some?
      ensures pendingId == if ok then Link.Relax(old(pendingId), id).value else old(pendingId)
      ensures ok <==> id == 0 || old(pendingId) in {0, id}
      ensures pendingId == if old(pendingId) == id then 0 else old(pendingId)
    {
      if id == SERIAL_ID_TO_IGNORE || !IsEngaged() {
        return true;
      }
      if pendingId != id {
        return false;
      }
      pendingId := SERIAL_ID_TO_IGNORE;
      return true;
    }
  }

  function NextId(id: byte): byte {
    if id == 255 then 1 else id + 1
  }

  class McuId {
    var serialId: byte

    constructor ()
      ensures serialId == 0
    {
      serialId := 0;
    }

    /** Increments the byte, skipping the id to ignore when it wraps around. */
    method Get() returns (id: byte)
      modifies this
      ensures id == serialId == NextId(old(serialId)) && id != SERIAL_ID_TO_IGNORE
    {
      serialId := if serialId == 255 then 0 else serialId + 1;
      if serialId == SERIAL_ID_TO_IGNORE {
        serialId := serialId + 1;
      }
      id := serialId;
    }
  }

  function Ids(id: byte, n: nat): byte
    decreases n
  {
    if n == 0 then id else Ids(NextId(id), n - 1)
  }

  /** Serial ids never are the one to ignore, and repeat only after all 255 have been used. */
  lemma {:induction false} IdsCycle(id: byte, n: nat)
    requires n > 0
    ensures Ids(id, n) == (id + n - 1) % 255 + 1
    decreases n
  {
    if n > 1 {
      IdsCycle(NextId(id), n - 1);
      if id == 255 {
        assert (id + n - 1) == (n - 1) + 255;
        assert (1 + (n - 1) - 1) % 255 == (id + n - 1) % 255 by { Mod255(n - 1); }
      }
    } else {
      assert id < 255 ==> id % 255 == id;
    }
  }

  lemma Mod255(n: nat)
    ensures (n + 255) % 255 == n % 255
  {
  }

  /** All of a transfer's bytes parsed, or the mismatch that stopped it. */
  function ParseAll(pi: Pi): Pi
    requires pi.pc.Parse?
    decreases |pi.pc.got|
  {
    if pi.pc.got == [] then pi
    else
      var next := ParseByte(pi);
      if next.pc.Crashed? then next else ParseAll(next)
  }

  /** Where the thread goes when the bytes of a transfer have been parsed. */
  function Parsed(pi: Pi, got: seq<byte>, polling: bool): Pi {
    var end := ParseAll(pi.(pc := Parse(got, polling)));
    if end.pc.Crashed? then end else end.(pc := if polling then Poll else Top)
  }

  /** The pass from the poll of the interrupt queue on. */
  function RestOf(pi: Pi, sent: seq<byte>): Pi {
    var p2 := PollEdge(pi);
    if p2.pc.Top? then p2
    else if MustWait(p2) then p2.(pc := Asleep(false))
    else
      var p3 := SendNext(p2);
      if p3.pc.Transfer? then Parsed(p3, sent, false) else p3
  }

  /** One pass of the thread's loop that nothing interrupts: the moves of the link's Pi from Top,
      with the bytes that the transfers of the pass return. */
  function PassOf(pi: Pi, polled: seq<byte>, sent: seq<byte>): Pi {
    var p1 := if pi.raised then Parsed(pi, polled, true) else pi.(pc := Poll);
    if p1.pc.Crashed? then p1 else RestOf(p1, sent)
  }

  class McuHandle {
    const condition: Condition
    const toQueue: ConditionQueue<Msg>
    const interruptQueue: ConditionQueue<bool>
    const block: McuBlock
    const parse: McuParse
    var interruptRaised: bool
    var fromQueue: seq<seq<byte>>

    ghost function Repr(): set<object> {
      {this, toQueue, interruptQueue, block, parse}
    }

    /** The queues share their condition, and between transfers the parser holds the start of a frame. */
    ghost predicate Valid()
      reads this, parse
    {
      toQueue.condition == interruptQueue.condition == condition && Partial(parse.buf)
    }

    ghost function View(pc: Pc): Pi
      reads Repr()
    {
      Pi(pc, interruptRaised, interruptQueue.queue, toQueue.queue, block.pendingId, parse.buf)
    }

    constructor ()
      ensures Valid() && View(Top) == Pi(Top, false, [], [], SERIAL_ID_TO_IGNORE, [])
    {
      var c := new Condition();
      condition := c;
      toQueue := new ConditionQueue(c);
      interruptQueue := new ConditionQueue(c);
      block := new McuBlock();
      parse := new McuParse();
      interruptRaised := false;
      fromQueue := [];
    }

    /** The thread waits on the condition exactly while it is asleep. */
    ghost predicate Waits(pc: Pc)
      reads condition
    {
      condition.waiting == pc.Asleep? && (pc.Asleep? ==> condition.notified == pc.notified)
    }

    /** Another thread pushes a message while this one is at `pc`. */
    method PushMessage(m: Msg, ghost pc: Pc) returns (ghost pc1: Pc)
      requires Valid() && Waits(pc)
      modifies toQueue, condition
      ensures Waits(pc1) && View(pc1) == QueueMsg(old(View(pc)), m)
    {
      toQueue.Push(m);
      pc1 := if pc.Asleep? then Asleep(condition.notified) else pc;
    }

    /** The kernel's edge while this thread is at `pc`. */
    method PushEdge(level: bool, ghost pc: Pc) returns (ghost pc1: Pc)
      requires Valid() && Waits(pc)
      modifies interruptQueue, condition
      ensures Waits(pc1) && View(pc1) == QueueEdge(old(View(pc)), level)
    {
      interruptQueue.Push(level);
      pc1 := if pc.Asleep? then Asleep(condition.notified) else pc;
    }

    /** The end of step 1: take at most one edge off the interrupt queue. */
    method PollInterrupt() returns (raised: bool)
      modifies this, interruptQueue
      ensures View(if raised then Top else Decide) == PollEdge(old(View(Poll)))
      ensures raised == interruptRaised && fromQueue == old(fromQueue)
      ensures old(interruptQueue.queue) == [] ==>
                interruptRaised == old(interruptRaised) && interruptQueue.queue == []
      ensures old(interruptQueue.queue) != [] ==>
                interruptRaised == old(interruptQueue.queue)[0]
                && interruptQueue.queue == old(interruptQueue.queue)[1..]
    {
      var edge := interruptQueue.Pop();
      if edge.Some? {
        interruptRaised := edge.value;
      }
      raised := interruptRaised;
    }

    /** Step 2's condition for waiting. */
    method ShouldWait() returns (wait: bool)
      ensures wait == MustWait(View(Decide))
      ensures wait <==> interruptQueue.queue == [] && (block.pendingId != 0 || toQueue.queue == [])
    {
      wait := |interruptQueue.queue| == 0 && (block.IsEngaged() || |toQueue.queue| == 0);
    }

    /** Step 3's choice of a message, None while engaged or with nothing to send. */
    method TakeMessage() returns (msg: Option<Msg>)
      modifies toQueue
      ensures msg.Some? <==> old(SendNext(View(Send))).pc.Transfer?
      ensures msg.Some? ==> msg.value == old(toQueue.queue)[0] && toQueue.queue == old(toQueue.queue)[1..]
      ensures msg.None? ==> toQueue.queue == old(toQueue.queue)
    {
      msg := None;
      if !block.IsEngaged() {
        msg := toQueue.Pop();
      }
    }

    /** write_msg up to the transfer: the frame to clock out, with the lock engaged. */
    method BeginWrite(src: seq<byte>) returns (out: Option<seq<byte>>)
      modifies block
      ensures out == if |src| < 2 then None else Some(Frame(src))
      ensures block.pendingId == if |src| < 2 then old(block.pendingId)
                                 else Link.Engage(old(block.pendingId), src[0])
    {
      var m := Split(src);
      if m.None? {
        return None;
      }
      var frame := WrapMsg(src);
      block.Engage(m.value.serial);
      out := Some(frame);
    }

    /** Step 3 up to the transfer: the frame to clock out, if something may be sent. */
    method SendStep() returns (out: Option<seq<byte>>)
      modifies toQueue, block
      ensures View(if out.Some? then Transfer(out.value, [], false) else Top) == SendNext(old(View(Send)))
    {
      out := None;
      var msg := TakeMessage();
      if msg.Some? {
        out := BeginWrite(Body(msg.value));
      }
    }

    /** One byte of a transfer: parse it, relax on a message and pass it on. */
    method FinishByte(info: byte, ghost rest: seq<byte>, ghost polling: bool) returns (ok: bool)
      modifies this`fromQueue, block, parse
      ensures View(if ok then Parse(rest, polling) else Crashed)
              == ParseByte(old(View(Parse([info] + rest, polling))))
      ensures fromQueue
              == old(fromQueue)
                 + (var msg := old(Push(parse.buf, info)).1; if ok && msg.Some? then [msg.value] else [])
    {
      ok := true;
      PushLength(parse.buf, info);
      var msg := parse.PushByte(info);
      if msg.Some? {
        var m := Split(msg.value);
        ok := block.Relax(m.value.serial);
        if ok {
          fromQueue := fromQueue + [msg.value];
        }
      }
    }

    /** write_msg after the transfer returned `got`: parse it all, relax on each message and
        pass it on; false where the original throws, with the messages before that passed on. */
    method FinishWrite(got: seq<byte>, polling: bool) returns (ok: bool)
      requires Valid()
      modifies this`fromQueue, block, parse
      ensures ParseAll(old(View(Parse(got, polling)))) == View(if ok then Parse([], polling) else Crashed)
      ensures old(fromQueue) <= fromQueue <= old(fromQueue) + Scan(old(parse.buf) + got)
      ensures ok ==> Valid() && fromQueue == old(fromQueue) + Scan(old(parse.buf) + got)
      ensures ok ==> parse.buf == Unfinished(old(parse.buf) + got)
    {
      ghost var start := View(Parse(got, polling));
      ghost var first := parse.buf;
      ParserScans(first, got);
      for i := 0 to |got|
        invariant ParseAll(start) == ParseAll(View(Parse(got[i..], polling)))
        invariant Feed(parse.buf, got[i..]).0 == Feed(first, got).0
        invariant old(fromQueue) <= fromQueue
        invariant fromQueue + Feed(parse.buf, got[i..]).1 == old(fromQueue) + Feed(first, got).1
      {
        assert got[i..] == [got[i]] + got[i + 1..];
        ParseNext(start, View(Parse(got[i..], polling)));
        FeedFirst(parse.buf, got[i], got[i + 1..], fromQueue);
        ok := FinishByte(got[i], got[i + 1..], polling);
        if !ok {
          return;
        }
      }
      ok := true;
    }

    /** The IDLE frame that lets the AVR send, and the bytes it sent: the messages in them are
        passed on, in order. */
    method PollFrame(polled: seq<byte>) returns (out: seq<byte>, ok: bool)
      requires Valid()
      modifies this`fromQueue, block, parse
      ensures View(if ok then Poll else Crashed) == Parsed(old(View(Top)), polled, true)
      ensures out == [250, 2, 0, 3]
      ensures old(fromQueue) <= fromQueue <= old(fromQueue) + Scan(old(parse.buf) + polled)
      ensures ok ==> Valid() && fromQueue == old(fromQueue) + Scan(old(parse.buf) + polled)
      ensures ok ==> parse.buf == Unfinished(old(parse.buf) + polled)
    {
      var frame := BeginWrite(Body(IDLE));
      out := frame.value;
      ParseEnd(View(Parse(polled, true)));
      ok := FinishWrite(polled, true);
    }

    /** The next message, if one may be sent, and the messages in the bytes that came in meanwhile. */
    method SendFrame(sent: seq<byte>) returns (out: Option<seq<byte>>, ok: bool)
      requires Valid()
      modifies this`fromQueue, toQueue, block, parse
      ensures View(if ok then Top else Crashed)
              == var pi := SendNext(old(View(Send))); if pi.pc.Transfer? then Parsed(pi, sent, false) else pi
      ensures out.Some? <==> old(block.pendingId) == 0 && old(toQueue.queue) != []
      ensures out.None? ==> ok && Valid() && toQueue.queue == old(toQueue.queue) && fromQueue == old(fromQueue)
      ensures out.Some? ==> out == Some(Wire(old(toQueue.queue)[0])) && toQueue.queue == old(toQueue.queue)[1..]
      ensures old(fromQueue) <= fromQueue <= old(fromQueue) + Scan(old(parse.buf) + sent)
      ensures out.Some? && ok ==> Valid() && fromQueue == old(fromQueue) + Scan(old(parse.buf) + sent)
    {
      ok := true;
      out := SendStep();
      if out.Some? {
        ParseEnd(View(Parse(sent, false)));
        ok := FinishWrite(sent, false);
      }
    }

    /** What is left of a pass after its poll: the next edge, and then the first message if the line
        is low and nothing is pending. */
    method Rest(sent: seq<byte>) returns (pc: Pc, out: seq<seq<byte>>)
      requires Valid()
      modifies this, toQueue, interruptQueue, block, parse
      ensures View(pc) == RestOf(old(View(Poll)), sent)
      ensures out == [] ==> pc != Crashed && Valid() && fromQueue == old(fromQueue) && toQueue.queue == old(toQueue.queue)
      ensures out != [] ==> old(toQueue.queue) != [] && out == [Wire(old(toQueue.queue)[0])]
      ensures out != [] ==> toQueue.queue == old(toQueue.queue)[1..]
      ensures out != [] ==> old(fromQueue) <= fromQueue
      ensures out != [] && pc != Crashed ==> Valid() && fromQueue == old(fromQueue) + Scan(old(parse.buf) + sent)
    {
      out := [];
      var raised := PollInterrupt();
      if raised {
        return Top, out;
      }
      var wait := ShouldWait();
      if wait {
        return Asleep(false), out;
      }
      var frame, ok := SendFrame(sent);
      if frame.Some? {
        out := [frame.value];
      }
      pc := if ok then Top else Crashed;
    }

    /** The bytes that a pass reads. */
    ghost function Heard(polls: bool, polled: seq<byte>, sends: bool, sent: seq<byte>): seq<byte> {
      (if polls then polled else []) + if sends then sent else []
    }

    /** Step 1 up to the interrupt queue: a raised line is polled. */
    method First(polled: seq<byte>) returns (out: seq<seq<byte>>, ok: bool)
      requires Valid()
      modifies this`fromQueue, block, parse
      ensures View(if ok then Poll else Crashed)
              == if interruptRaised then Parsed(old(View(Top)), polled, true) else old(View(Poll))
      ensures out == if interruptRaised then [[250, 2, 0, 3]] else []
      ensures old(fromQueue) <= fromQueue
      ensures ok ==>
                var buf := old(parse.buf) + if interruptRaised then polled else [];
                Valid() && fromQueue == old(fromQueue) + Scan(buf) && parse.buf == Unfinished(buf)
    {
      out, ok := [], true;
      ScanNone(parse.buf);
      if interruptRaised {
        var idle;
        idle, ok := PollFrame(polled);
        out := [idle];
      }
    }

    /** One pass of the loop of `start`; the bytes that its transfers return are parameters, and the
        frames it clocks out results.  A pass first polls a raised line, and then sends at most the
        first message there is; unless it stops at a mismatch, it passes on every message in the bytes
        of the poll and of the send, in order, behind those that wait already. */
    method Pass(polled: seq<byte>, sent: seq<byte>) returns (pc: Pc, out: seq<seq<byte>>)
      requires Valid()
      modifies this, toQueue, interruptQueue, block, parse
      ensures View(pc) == PassOf(old(View(Top)), polled, sent)
      ensures toQueue.queue == old(toQueue.queue)
              || (old(toQueue.queue) != [] && toQueue.queue == old(toQueue.queue)[1..])
      ensures var sends := |toQueue.queue| < |old(toQueue.queue)|;
              && out == (if old(interruptRaised) then [[250, 2, 0, 3]] else [])
                        + (if sends then [Wire(old(toQueue.queue)[0])] else [])
              && old(fromQueue) <= fromQueue
              && (pc != Crashed ==>
                    && Valid()
                    && fromQueue
                       == old(fromQueue) + Scan(old(parse.buf) + Heard(old(interruptRaised), polled, sends, sent)))
    {
      ghost var polls, first, waiting := interruptRaised, parse.buf, fromQueue;
      var idle, ok := First(polled);
      if !ok {
        return Crashed, idle;
      }
      ghost var bytes := if polls then polled else [];
      var frame;
      pc, frame := Rest(sent);
      out := idle + frame;
      ScanTwice(first, bytes, if frame == [] then [] else sent, waiting);
      ScanNone(Unfinished(first + bytes));
    }
  }

  lemma ScanNone(buf: seq<byte>)
    requires Partial(buf)
    ensures Scan(buf) == Scan(buf + []) == [] && Unfinished(buf + []) == buf
  {
    ParserScans(buf, []);
    assert buf + [] == buf;
  }

  /** Two stretches of a stream are read one after the other from what the first leaves of a frame. */
  lemma ScanTwice(buf: seq<byte>, a: seq<byte>, b: seq<byte>, queue: seq<seq<byte>>)
    requires Partial(buf)
    ensures Partial(Unfinished(buf + a))
    ensures queue + Scan(buf + a) + Scan(Unfinished(buf + a) + b) == queue + Scan(buf + (a + b))
  {
    ParserScans(buf, a);
    ParserScans(Feed(buf, a).0, b);
    ParserScans(buf, a + b);
    FeedConcat(buf, a, b);
    Assoc(queue, Feed(buf, a).1, Feed(Feed(buf, a).0, b).1);
  }

  lemma ParseNext(start: Pi, now: Pi)
    requires start.pc.Parse? && now.pc.Parse? && now.pc.got != [] && ParseAll(start) == ParseAll(now)
    ensures var next := ParseByte(now);
            if next.pc.Crashed? then ParseAll(start) == next
            else next.pc.Parse? && ParseAll(start) == ParseAll(next)
  {
  }

  lemma FeedFirst(buf: seq<byte>, info: byte, rest: seq<byte>, queue: seq<seq<byte>>)
    ensures var (kept, msg) := Push(buf, info);
            queue + Feed(buf, [info] + rest).1
            == (queue + if msg.Some? then [msg.value] else []) + Feed(kept, rest).1
  {
    assert ([info] + rest)[1..] == rest;
  }

  lemma PushLength(buf: seq<byte>, info: byte)
    ensures Push(buf, info).1.Some? ==> |Push(buf, info).1.value| >= 2
  {
  }

  /** The first of a transfer's bytes, as the link records it. */
  lemma ParseNote(s: State, h: History)
    requires s.pi.pc.Parse? && s.pi.pc.got != []
    ensures var msg := Push(s.pi.buf, s.pi.pc.got[0]).1;
            Note(s, h, PiMoves).received == h.received + (if msg.Some? then [msg.value] else [])
    ensures var s1 := Next(s, PiMoves);
            !s1.pi.pc.Crashed? ==>
              h.received + Feed(s.pi.buf, s.pi.pc.got).1
              == Note(s, h, PiMoves).received + Feed(s1.pi.buf, s1.pi.pc.got).1
  {
    assert s.pi.pc.got == [s.pi.pc.got[0]] + s.pi.pc.got[1..];
    FeedFirst(s.pi.buf, s.pi.pc.got[0], s.pi.pc.got[1..], h.received);
  }

  /** Parsing a transfer is a run of the link's Pi moves, one a byte, and without a mismatch what it
      records as received is what the parser puts out. */
  lemma {:induction false} ParseAllIsMoves(s: State, h: History) returns (actions: seq<Action>)
    requires s.pi.pc.Parse?
    ensures Legal(s, actions) && (forall a <- actions :: a == PiMoves)
    ensures Run(s, actions) == s.(pi := ParseAll(s.pi))
    ensures !ParseAll(s.pi).pc.Crashed? ==>
              RunNotes(s, h, actions).received == h.received + Feed(s.pi.buf, s.pi.pc.got).1
    decreases |s.pi.pc.got|
  {
    if s.pi.pc.got == [] {
      actions := [];
      assert h.received + [] == h.received;
    } else {
      ParseNote(s, h);
      actions := ParseMore(s, h);
    }
  }

  lemma {:induction false} ParseMore(s: State, h: History) returns (actions: seq<Action>)
    requires s.pi.pc.Parse? && s.pi.pc.got != []
    ensures Legal(s, actions) && (forall a <- actions :: a == PiMoves)
    ensures Run(s, actions) == s.(pi := ParseAll(s.pi))
    ensures var s1 := Next(s, PiMoves);
            !ParseAll(s.pi).pc.Crashed? ==>
              !s1.pi.pc.Crashed?
              && RunNotes(s, h, actions).received
                 == Note(s, h, PiMoves).received + Feed(s1.pi.buf, s1.pi.pc.got).1
    decreases |s.pi.pc.got|, 0
  {
    var s1 := Next(s, PiMoves);
    if s1.pi.pc.Crashed? {
      actions := [PiMoves];
      assert Run(s1, actions[1..]) == s1;
    } else {
      var rest := ParseAllIsMoves(s1, Note(s, h, PiMoves));
      actions := [PiMoves] + rest;
      assert actions[1..] == rest;
    }
  }

  lemma {:induction false} ParseEnd(pi: Pi)
    requires pi.pc.Parse?
    ensures ParseAll(pi).pc.Crashed? || ParseAll(pi).pc == Parse([], pi.pc.polling)
    decreases |pi.pc.got|
  {
    if pi.pc.got != [] {
      var next := ParseByte(pi);
      if !next.pc.Crashed? {
        ParseEnd(next);
      }
    }
  }

  // ----- a pass is a run of the link's Pi -----

  /** One move of the link's Pi, or all the byte exchanges of one transfer. */
  predicate PiStep(a: Pi, b: Pi) {
    || (PiReady(a) && b == PiRun(a))
    || (a.pc.Transfer? && a.pc.got == [] && b.pc.Transfer? && b.pc.out == []
        && b == a.(pc := Transfer([], b.pc.got, a.pc.polling)))
  }

  predicate Trace(t: seq<Pi>, first: Pi, last: Pi) {
    |t| > 0 && t[0] == first && t[|t| - 1] == last && forall i :: 0 <= i < |t| - 1 ==> PiStep(t[i], t[i + 1])
  }

  lemma TraceMore(first: Pi, next: Pi, t: seq<Pi>, last: Pi)
    requires PiStep(first, next) && Trace(t, next, last)
    ensures Trace([first] + t, first, last)
  {
    var all := [first] + t;
    forall i | 0 <= i < |all| - 1
      ensures PiStep(all[i], all[i + 1])
    {
      assert i > 0 ==> all[i] == t[i - 1];
      assert all[i + 1] == t[i];
    }
  }

  lemma TraceJoin(t: seq<Pi>, first: Pi, mid: Pi, u: seq<Pi>, last: Pi)
    requires Trace(t, first, mid) && Trace(u, mid, last)
    ensures Trace(t + u[1..], first, last)
  {
    var all := t + u[1..];
    forall i | 0 <= i < |all| - 1
      ensures PiStep(all[i], all[i + 1])
    {
      if i < |t| - 1 {
        assert all[i] == t[i] && all[i + 1] == t[i + 1];
      } else {
        assert all[i] == u[i - |t| + 1] && all[i + 1] == u[i - |t| + 2];
      }
    }
  }

  lemma {:induction false} ParseTrace(pi: Pi) returns (t: seq<Pi>)
    requires pi.pc.Parse?
    ensures var end := ParseAll(pi);
            Trace(t, pi, if end.pc.Crashed? then end else end.(pc := if pi.pc.polling then Poll else Top))
    decreases |pi.pc.got|
  {
    var next := PiRun(pi);
    if pi.pc.got == [] || next.pc.Crashed? {
      t := [pi, next];
    } else {
      var rest := ParseTrace(next);
      TraceMore(pi, next, rest, rest[|rest| - 1]);
      t := [pi] + rest;
    }
  }

  /** A transfer and the parsing of what it returns. */
  lemma TransferTrace(pi: Pi, got: seq<byte>) returns (t: seq<Pi>)
    requires pi.pc.Transfer? && pi.pc.got == []
    ensures Trace(t, pi, Parsed(pi, got, pi.pc.polling))
  {
    var done := pi.(pc := Transfer([], got, pi.pc.polling));
    var parse := pi.(pc := Parse(got, pi.pc.polling));
    var rest := ParseTrace(parse);
    assert PiRun(done) == parse;
    TraceMore(done, parse, rest, rest[|rest| - 1]);
    TraceMore(pi, done, [done] + rest, rest[|rest| - 1]);
    t := [pi] + ([done] + rest);
  }

  /** From the poll of the interrupt queue on. */
  lemma PollTrace(pi: Pi, sent: seq<byte>) returns (t: seq<Pi>)
    requires pi.pc.Poll?
    ensures Trace(t, pi, RestOf(pi, sent))
  {
    var p2 := PiRun(pi);
    if p2.pc.Top? {
      t := [pi, p2];
    } else {
      var p := PiRun(p2);
      t := [pi, p2, p];
      if !MustWait(p2) {
        var p3 := PiRun(p);
        assert p3 == SendNext(p2);
        t := [pi, p2, p, p3];
        if p3.pc.Transfer? {
          var rest := TransferTrace(p3, sent);
          TraceJoin(t, pi, p3, rest, rest[|rest| - 1]);
          t := t + rest[1..];
        }
      }
    }
  }

  /** A pass of the thread's loop is a run of the link's Pi, whatever the transfers return. */
  lemma PassIsMoves(pi: Pi, polled: seq<byte>, sent: seq<byte>) returns (t: seq<Pi>)
    requires pi.pc.Top?
    ensures Trace(t, pi, PassOf(pi, polled, sent))
  {
    if pi.raised {
      var begun := PiRun(pi);
      var first := TransferTrace(begun, polled);
      TraceMore(pi, begun, first, first[|first| - 1]);
      t := [pi] + first;
      assert Parsed(begun, polled, true) == Parsed(pi, polled, true);
      var p1 := Parsed(pi, polled, true);
      if !p1.pc.Crashed? {
        var rest := PollTrace(p1, sent);
        TraceJoin(t, pi, p1, rest, rest[|rest| - 1]);
        t := t + rest[1..];
      }
    } else {
      var rest := PollTrace(pi.(pc := Poll), sent);
      TraceMore(pi, pi.(pc := Poll), rest, rest[|rest| - 1]);
      t := [pi] + rest;
    }
  }
}
