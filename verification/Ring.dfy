/** The byte ring under every buffer (src/avr/ring.c).

    There is no "full" flag: start == finish always reads as empty.  The ring is
    abstracted to the queued bytes and the index of the first one; the lemmas compare
    that abstraction with a plain bounded queue and find where the two part.
 */
module RingBuffer {
  import opened Constants

  /** What a reader of the ring sees: the queued bytes and the position of the first. */
  datatype Fifo = Fifo(contents: seq<byte>, start: nat)

  const EMPTY := Fifo([], 0)

  /** The value ring_size computes from the two indices. */
  function Occupancy(size: nat, start: nat, finish: nat): nat
    requires start <= size
  {
    if finish >= start then finish - start else size - start + finish
  }

  /** The position one past `n` bytes stored from `start`. */
  function Finish(size: nat, start: nat, n: nat): nat
    requires start < size && n <= size
  {
    if start + n <= size then start + n else start + n - size
  }

  /** Position `p` of a ring, for `p` less than one turn too far. */
  function Wrap(size: nat, p: nat): nat {
    if p < size then p else p - size
  }

  /** A fill of `n` bytes brings a ring that does not start at 0 to exactly `size` bytes. */
  predicate Tops(size: nat, q: Fifo, n: nat) {
    q.start > 0 && n > 0 && |q.contents| + n == size
  }

  function Filled(size: nat, q: Fifo, bytes: seq<byte>): Fifo {
    if |q.contents| + |bytes| > size then q
    else if Tops(size, q, |bytes|) then q.(contents := [])
    else q.(contents := q.contents + bytes)
  }

  function Drained(size: nat, q: Fifo): Fifo
    requires size > 0
  {
    if q.contents == [] then q
    else Fifo(q.contents[1..], if |q.contents| == 1 then 0 else Wrap(size, q.start + 1))
  }

  function DrainedBy(size: nat, q: Fifo, n: nat): Fifo
    requires size > 0
    decreases n
  {
    if n == 0 then q else DrainedBy(size, Drained(size, q), n - 1)
  }

  /** Every byte ever accepted and not drained is still there. */
  predicate Intact(size: nat, q: Fifo) {
    q.start < size && |q.contents| <= size && (q.contents == [] ==> q.start == 0)
    && (|q.contents| == size ==> q.start == 0)
  }

  class Ring {
    const data: array<byte>
    var start: nat
    var finish: nat

    ghost predicate Valid()
      reads this
    {
      0 < data.Length <= 255 && start < data.Length && finish <= data.Length
      && (finish == 0 ==> start == 0)
    }

    ghost function Contents(): (c: seq<byte>)
      reads this, data
      requires Valid()
      ensures |c| == Occupancy(data.Length, start, finish) <= data.Length
      ensures finish == Finish(data.Length, start, |c|)
    {
      if start <= finish then data[start..finish] else data[start..] + data[..finish]
    }

    ghost function View(): Fifo
      reads this, data
      requires Valid()
    {
      Fifo(Contents(), start)
    }

    constructor (size: nat)
      requires 0 < size <= 255
      ensures Valid() && View() == EMPTY && data.Length == size && fresh(data)
    {
      data := new byte[size](_ => BUFFER_INIT_PATTERN);
      start, finish := 0, 0;
    }

    method Size() returns (n: nat)
      requires Valid()
      ensures n == |Contents()|
    {
      n := Occupancy(data.Length, start, finish);
    }

    method Space() returns (n: nat)
      requires Valid()
      ensures n == data.Length - |Contents()|
    {
      n := data.Length - Occupancy(data.Length, start, finish);
    }

    method Clear()
      requires Valid()
      modifies this
      ensures Valid() && View() == EMPTY
    {
      start, finish := 0, 0;
    }

    /** The producer passes the `start` it read, which a consumer may have moved by `lag`
        positions since (0 when nothing intervened). */
    method ByteFill(seen: nat, b: byte, ghost lag: nat) returns (ok: bool)
      requires Valid()
      requires seen < data.Length && Wrap(data.Length, seen + lag) == start
      requires lag < data.Length && lag + |Contents()| <= data.Length
      requires seen == 0 || lag + |Contents()| < data.Length
      modifies this`finish, data
      ensures Valid()
      ensures old(|Contents()|) <= old(Occupancy(data.Length, seen, finish))
      ensures ok == (old(|Contents()|) + lag < data.Length)
      ensures View() == if ok then Filled(data.Length, old(View()), [b]) else old(View())
    {
      ghost var c := Contents();
      var occupied := Occupancy(data.Length, seen, finish);
      assert occupied == lag + |c| by { StaleOccupancy(data.Length, seen, start, lag, |c|); }
      ok := 1 <= data.Length - occupied;
      if ok {
        if finish < data.Length {
          data[finish] := b;
          finish := finish + 1;
        } else {
          data[0] := b;
          finish := 1;
        }
        if Tops(data.Length, Fifo(c, start), 1) {
          assert Contents() == [];
        } else {
          assert Contents() == c + [b];
        }
      }
    }

    method ByteDrain() returns (got: Option<byte>)
      requires Valid()
      modifies this
      ensures Valid()
      ensures got == if old(Contents()) == [] then None else Some(old(Contents())[0])
      ensures View() == Drained(data.Length, old(View()))
    {
      ghost var c := Contents();
      if 1 <= Occupancy(data.Length, start, finish) {
        got := Some(data[start]);
        start := start + 1;
        if start == finish {
          start, finish := 0, 0;
        }
        if start == data.Length {
          start := 0;
        }
        assert Contents() == c[1..];
      } else {
        got := None;
      }
    }

    method ByteGet(index: nat) returns (got: Option<byte>)
      requires Valid() && index < 256
      ensures got == if index < |Contents()| then Some(Contents()[index]) else None
    {
      got := None;
      if index >= data.Length {
        return;
      }
      if index + 1 <= Occupancy(data.Length, start, finish) {
        if start + index < data.Length {
          got := Some(data[start + index]);
        } else {
          got := Some(data[start + index - data.Length]);
        }
      }
    }

    method ArrayFill(seen: nat, buf: array<byte>, n: nat, ghost lag: nat) returns (ok: bool)
      requires Valid() && n <= buf.Length && n < 256 && buf != data
      requires seen < data.Length && Wrap(data.Length, seen + lag) == start
      requires lag < data.Length && lag + |Contents()| <= data.Length
      requires seen == 0 || lag + |Contents()| < data.Length
      modifies this`finish, data
      ensures Valid()
      ensures ok == (old(|Contents()|) + lag + n <= data.Length)
      ensures View() == if ok then Filled(data.Length, old(View()), buf[..n]) else old(View())
    {
      ghost var q := View();
      StaleOccupancy(data.Length, seen, start, lag, |q.contents|);
      ok := n <= data.Length - Occupancy(data.Length, seen, finish);
      if ok {
        for i := 0 to n
          invariant Valid()
          invariant View() == Filled(data.Length, q, buf[..i])
        {
          FilledExtends(data.Length, q, buf[..i], buf[i]);
          assert buf[..i + 1] == buf[..i] + [buf[i]];
          var filled := ByteFill(seen, buf[i], lag);
        }
      }
    }

    method ArrayDrain(buf: array<byte>, n: nat) returns (ok: bool)
      requires Valid() && n <= buf.Length && n < 256 && buf != data
      modifies this, buf
      ensures Valid()
      ensures ok == (n <= old(|Contents()|))
      ensures ok ==> buf[..n] == old(Contents())[..n] && View() == DrainedBy(data.Length, old(View()), n)
      ensures ok ==> Contents() == old(Contents())[n..]
      ensures !ok ==> View() == old(View()) && buf[..] == old(buf[..])
      ensures forall k :: n <= k < buf.Length ==> buf[k] == old(buf[k])
    {
      ghost var q := View();
      ok := n <= Occupancy(data.Length, start, finish);
      if ok {
        for i := 0 to n
          invariant Valid()
          invariant forall k :: n <= k < buf.Length ==> buf[k] == old(buf[k])
          invariant buf[..i] == q.contents[..i]
          invariant View() == DrainedBy(data.Length, q, i) && Contents() == q.contents[i..]
        {
          var got := ByteDrain();
          DrainedOnce(data.Length, q, i);
          if got.Some? {
            buf[i] := got.value;
          }
        }
      }
    }
  }

  // ----- index arithmetic -----

  lemma StaleOccupancy(size: nat, seen: nat, start: nat, lag: nat, n: nat)
    requires seen < size && lag < size && Wrap(size, seen + lag) == start && lag + n <= size
    requires seen == 0 || lag + n < size
    ensures Occupancy(size, seen, Finish(size, start, n)) == lag + n
  {
  }

  lemma FilledExtends(size: nat, q: Fifo, bytes: seq<byte>, b: byte)
    requires |q.contents| + |bytes| < size
    ensures Filled(size, q, bytes + [b]) == Filled(size, Filled(size, q, bytes), [b])
  {
    assert q.contents + bytes + [b] == q.contents + (bytes + [b]);
  }

  lemma DrainedOnce(size: nat, q: Fifo, n: nat)
    requires size > 0
    ensures DrainedBy(size, q, n + 1) == Drained(size, DrainedBy(size, q, n))
    decreases n
  {
    if n > 0 {
      DrainedOnce(size, Drained(size, q), n - 1);
    }
  }

  // ----- comparison with a bounded queue -----

  /** How far the consumer has moved from the producer's copy of `start` after `n` drains. */
  function Lag(size: nat, q: Fifo, n: nat): nat
    requires size > 0 && q.start < size
  {
    if n < |q.contents| then n else Wrap(size, size - q.start)
  }

  /** The producer's copy of `start`, taken before any number of drains, meets the
      preconditions of the fill methods, and the occupancy it gives is never too small. */
  lemma {:induction false} StaleStart(size: nat, q: Fifo, n: nat)
    requires Intact(size, q)
    ensures var now := DrainedBy(size, q, n);
            var lag := Lag(size, q, n);
            && Intact(size, now)
            && now.contents == (if n < |q.contents| then q.contents[n..] else [])
            && lag < size && Wrap(size, q.start + lag) == now.start
            && lag + |now.contents| <= size
            && (q.start == 0 || lag + |now.contents| < size)
    decreases n
  {
    if n > 0 {
      StaleStart(size, if q.contents == [] then q else Drained(size, q), n - 1);
    }
  }

  /** Stale-start safety: after at least one drain that the producer did not see, a fill either
      refuses or is a correct append. */
  lemma StaleFill(size: nat, q: Fifo, n: nat, bytes: seq<byte>)
    requires Intact(size, q) && n > 0 && q.contents != [] && bytes != []
    ensures var now := DrainedBy(size, q, n);
            Lag(size, q, n) + |now.contents| + |bytes| <= size ==>
              Filled(size, now, bytes).contents == now.contents + bytes
  {
    StaleStart(size, q, n);
  }

  datatype Op = Put(bytes: seq<byte>) | Take(n: nat) | Peek(index: nat) | Reset
  datatype Answer = Refused | Accepted | Got(bytes: seq<byte>)

  function RingDo(size: nat, q: Fifo, op: Op): (Fifo, Answer)
    requires size > 0
  {
    match op
    case Put(bytes) =>
      (Filled(size, q, bytes), if |q.contents| + |bytes| <= size then Accepted else Refused)
    case Take(n) =>
      if n <= |q.contents| then (DrainedBy(size, q, n), Got(q.contents[..n])) else (q, Refused)
    case Peek(i) =>
      (q, if i < |q.contents| then Got([q.contents[i]]) else Refused)
    case Reset => (EMPTY, Accepted)
  }

  /** A plain first-in first-out queue of capacity `size`. */
  function QueueDo(size: nat, c: seq<byte>, op: Op): (seq<byte>, Answer) {
    match op
    case Put(bytes) => if |c| + |bytes| <= size then (c + bytes, Accepted) else (c, Refused)
    case Take(n) => if n <= |c| then (c[n..], Got(c[..n])) else (c, Refused)
    case Peek(i) => (c, if i < |c| then Got([c[i]]) else Refused)
    case Reset => ([], Accepted)
  }

  lemma {:induction false} DrainedContents(size: nat, q: Fifo, n: nat)
    requires Intact(size, q) && n <= |q.contents|
    ensures DrainedBy(size, q, n).contents == q.contents[n..]
    ensures Intact(size, DrainedBy(size, q, n))
    decreases n
  {
    if n > 0 {
      DrainedContents(size, Drained(size, q), n - 1);
    }
  }

  /** One operation agrees with the bounded queue exactly when it does not top a ring that
      starts above 0. */
  lemma StepRefines(size: nat, q: Fifo, op: Op)
    requires Intact(size, q)
    ensures RingDo(size, q, op).1 == QueueDo(size, q.contents, op).1
    ensures (RingDo(size, q, op).0.contents == QueueDo(size, q.contents, op).0)
            <==> !(op.Put? && Tops(size, q, |op.bytes|))
    ensures !(op.Put? && Tops(size, q, |op.bytes|)) ==> Intact(size, RingDo(size, q, op).0)
  {
    if op.Take? && op.n <= |q.contents| {
      DrainedContents(size, q, op.n);
    }
  }

  function RunRing(size: nat, q: Fifo, ops: seq<Op>): (Fifo, seq<Answer>)
    requires size > 0
    decreases |ops|
  {
    if ops == [] then (q, [])
    else
      var (q1, a) := RingDo(size, q, ops[0]);
      var (q2, rest) := RunRing(size, q1, ops[1..]);
      (q2, [a] + rest)
  }

  function RunQueue(size: nat, c: seq<byte>, ops: seq<Op>): (seq<byte>, seq<Answer>)
    decreases |ops|
  {
    if ops == [] then (c, [])
    else
      var (c1, a) := QueueDo(size, c, ops[0]);
      var (c2, rest) := RunQueue(size, c1, ops[1..]);
      (c2, [a] + rest)
  }

  /** No fill of the run tops the ring. */
  predicate NeverTops(size: nat, q: Fifo, ops: seq<Op>)
    requires size > 0
    decreases |ops|
  {
    ops == [] ||
    (!(ops[0].Put? && Tops(size, q, |ops[0].bytes|))
     && NeverTops(size, RingDo(size, q, ops[0]).0, ops[1..]))
  }

  /** The ring's answers to `ops`, and to any one question asked afterwards, are those of the
      bounded queue. */
  ghost predicate Indistinguishable(size: nat, q: Fifo, ops: seq<Op>)
    requires size > 0
  {
    forall n: nat | n <= |ops| ::
      RunRing(size, q, ops[..n]).0.contents == RunQueue(size, q.contents, ops[..n]).0
      && RunRing(size, q, ops[..n]).1 == RunQueue(size, q.contents, ops[..n]).1
  }

  lemma {:induction false} RunRefines(size: nat, q: Fifo, ops: seq<Op>)
    requires Intact(size, q) && NeverTops(size, q, ops)
    ensures Intact(size, RunRing(size, q, ops).0)
    ensures RunRing(size, q, ops).0.contents == RunQueue(size, q.contents, ops).0
    ensures RunRing(size, q, ops).1 == RunQueue(size, q.contents, ops).1
    decreases |ops|
  {
    if ops != [] {
      StepRefines(size, q, ops[0]);
      RunRefines(size, RingDo(size, q, ops[0]).0, ops[1..]);
    }
  }

  lemma {:induction false} NeverTopsPrefix(size: nat, q: Fifo, ops: seq<Op>, n: nat)
    requires size > 0 && n <= |ops| && NeverTops(size, q, ops)
    ensures NeverTops(size, q, ops[..n])
    decreases n
  {
    if n > 0 {
      NeverTopsPrefix(size, RingDo(size, q, ops[0]).0, ops[1..], n - 1);
      assert ops[..n][1..] == ops[1..][..n - 1];
    }
  }

  /** The first operation that tops the ring, found by following the run. */
  lemma {:induction false} FirstTop(size: nat, q: Fifo, ops: seq<Op>) returns (n: nat)
    requires Intact(size, q) && !NeverTops(size, q, ops)
    ensures n < |ops| && NeverTops(size, q, ops[..n]) && ops[n].Put?
    ensures Tops(size, RunRing(size, q, ops[..n]).0, |ops[n].bytes|)
    decreases |ops|
  {
    if ops[0].Put? && Tops(size, q, |ops[0].bytes|) {
      n := 0;
    } else {
      StepRefines(size, q, ops[0]);
      var m := FirstTop(size, RingDo(size, q, ops[0]).0, ops[1..]);
      n := m + 1;
      assert ops[..n][1..] == ops[1..][..m];
    }
  }

  lemma {:induction false} RunSnoc(size: nat, q: Fifo, ops: seq<Op>, op: Op)
    requires size > 0
    ensures RunRing(size, q, ops + [op]).0 == RingDo(size, RunRing(size, q, ops).0, op).0
    ensures RunQueue(size, q.contents, ops + [op]).0
            == QueueDo(size, RunQueue(size, q.contents, ops).0, op).0
    decreases |ops|
  {
    if ops != [] {
      assert (ops + [op])[0] == ops[0] && (ops + [op])[1..] == ops[1..] + [op];
      RunSnoc(size, RingDo(size, q, ops[0]).0, ops[1..], op);
      QueueSnoc(size, QueueDo(size, q.contents, ops[0]).0, ops[1..], op);
    }
  }

  lemma {:induction false} QueueSnoc(size: nat, c: seq<byte>, ops: seq<Op>, op: Op)
    ensures RunQueue(size, c, ops + [op]).0 == QueueDo(size, RunQueue(size, c, ops).0, op).0
    decreases |ops|
  {
    if ops != [] {
      assert (ops + [op])[0] == ops[0] && (ops + [op])[1..] == ops[1..] + [op];
      QueueSnoc(size, QueueDo(size, c, ops[0]).0, ops[1..], op);
    }
  }

  /** The exact boundary: a run of any operations behaves as a bounded queue if and only if
      no fill brings a ring with start > 0 to exactly `size` bytes. */
  lemma ExactBoundary(size: nat, q: Fifo, ops: seq<Op>)
    requires Intact(size, q)
    ensures Indistinguishable(size, q, ops) <==> NeverTops(size, q, ops)
  {
    if NeverTops(size, q, ops) {
      forall n: nat | n <= |ops|
        ensures RunRing(size, q, ops[..n]).0.contents == RunQueue(size, q.contents, ops[..n]).0
        ensures RunRing(size, q, ops[..n]).1 == RunQueue(size, q.contents, ops[..n]).1
      {
        NeverTopsPrefix(size, q, ops, n);
        RunRefines(size, q, ops[..n]);
      }
    } else {
      var n := FirstTop(size, q, ops);
      RunRefines(size, q, ops[..n]);
      RunSnoc(size, q, ops[..n], ops[n]);
      StepRefines(size, RunRing(size, q, ops[..n]).0, ops[n]);
      assert ops[..n + 1] == ops[..n] + [ops[n]];
    }
  }

  /** A ring held strictly below its capacity never reaches the ambiguous state. */
  lemma BelowCapacity(size: nat, q: Fifo, bytes: seq<byte>)
    requires Intact(size, q) && |q.contents| + |bytes| < size
    ensures Filled(size, q, bytes).contents == q.contents + bytes
    ensures Intact(size, Filled(size, q, bytes))
  {
  }
}
