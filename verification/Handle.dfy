/** The Pi's producer of messages (src/pi/handle.cpp): cutting a matrix into LED_ARRAY
    messages, suspend and resume, and the playlist arithmetic. */
module HandleObjects {
  import opened Constants
  import opened Framing
  import opened Link
  import opened LinkInvariant
  import opened PiObjects

  const QUEUE_SIZE_LIMIT := 3

  /** The LED_ARRAY messages for a matrix: 20 columns each, the last one shorter. */
  function Chunks(id: byte, matrix: seq<byte>): seq<Msg>
    decreases |matrix|
  {
    if matrix == [] then []
    else
      var n := if |matrix| < LED_ARRAY_SIZE then |matrix| else LED_ARRAY_SIZE;
      [Msg(NextId(id), MSG_ID_LED_ARRAY, matrix[..n])] + Chunks(NextId(id), matrix[n..])
  }

  /** The id the Pi loads for a signed change of the playlist, as a uint8_t. */
  function NewPlaylistId(stored: byte, sign: byte, delta: byte): byte {
    if sign == PARAMETER_POSITIVE then (stored + delta) % 256
    else if stored > delta then stored - delta
    else 0
  }

  /** Whether the waiter of a queue is notified once it has grown from `before` to `after`. */
  predicate Told(notified: bool, waiting: bool, before: seq<Msg>, after: seq<Msg>) {
    notified || (waiting && before == [] && after != [])
  }

  datatype Command =
    | VolumeSet(up: bool, delta: byte)
    | TrackSet(up: bool, delta: byte)
    | PlaylistSet(id: byte)
    | Play
    | Halt

  /** What the player says of a value. */
  datatype Info = Info(value: byte, min: byte, max: byte)

  class Handle {
    const toQueue: ConditionQueue<Msg>
    const ids: McuId
    var suspended: bool
    var playlistId: byte
    var issued: seq<Command>

    constructor (toQueue: ConditionQueue<Msg>, ids: McuId)
      ensures this.toQueue == toQueue && this.ids == ids
      ensures !suspended && playlistId == 0 && issued == []
    {
      this.toQueue := toQueue;
      this.ids := ids;
      suspended := false;
      playlistId := 0;
      issued := [];
    }

    /** One LED_ARRAY message with the next serial id. */
    method PushColumns(columns: seq<byte>)
      modifies toQueue, toQueue.condition, ids
      ensures ids.serialId == NextId(old(ids.serialId))
      ensures toQueue.queue == old(toQueue.queue) + [Msg(ids.serialId, MSG_ID_LED_ARRAY, columns)]
      ensures toQueue.condition.waiting == old(toQueue.condition.waiting)
      ensures toQueue.condition.notified == Told(old(toQueue.condition.notified), old(toQueue.condition.waiting),
                                                 old(toQueue.queue), toQueue.queue)
    {
      var id := ids.Get();
      toQueue.Push(Msg(id, MSG_ID_LED_ARRAY, columns));
    }

    /** Pushes the content as rendered, or nothing when that failed, while suspended or when the
        queue is long enough. */
    method InfoPush(rendered: Option<seq<byte>>)
      modifies toQueue, toQueue.condition, ids
      ensures toQueue.queue == old(toQueue.queue)
              + if suspended || |old(toQueue.queue)| >= 3 || rendered.None? then []
                else Chunks(old(ids.serialId), rendered.value)
      ensures ids.serialId == Ids(old(ids.serialId), |toQueue.queue| - |old(toQueue.queue)|)
      ensures toQueue.condition.waiting == old(toQueue.condition.waiting)
      ensures toQueue.condition.notified == Told(old(toQueue.condition.notified), old(toQueue.condition.waiting),
                                                 old(toQueue.queue), toQueue.queue)
    {
      if suspended || |toQueue.queue| >= QUEUE_SIZE_LIMIT {
        return;
      }
      if rendered.None? {
        return;
      }
      var matrix := rendered.value;
      var len := |matrix| / LED_ARRAY_SIZE;
      var start, finish := 0, 0;
      ghost var all := toQueue.queue + Chunks(ids.serialId, matrix);
      ghost var last := Ids(ids.serialId, |Chunks(ids.serialId, matrix)|);
      for i := 0 to len
        invariant start == finish == i * LED_ARRAY_SIZE <= |matrix|
        invariant old(toQueue.queue) <= toQueue.queue
        invariant toQueue.queue + Chunks(ids.serialId, matrix[start..]) == all
        invariant Ids(ids.serialId, |Chunks(ids.serialId, matrix[start..])|) == last
        invariant toQueue.condition.waiting == old(toQueue.condition.waiting)
        invariant toQueue.condition.notified == Told(old(toQueue.condition.notified), old(toQueue.condition.waiting),
                                                     old(toQueue.queue), toQueue.queue)
      {
        finish := finish + LED_ARRAY_SIZE;
        PushPiece(matrix, start, finish, all);
        start := finish;
      }
      len := |matrix| % LED_ARRAY_SIZE;
      if len > 0 {
        finish := finish + len;
        PushPiece(matrix, start, finish, all);
      }
    }

    /** The next piece of a matrix, of which those before `start` have been pushed. */
    method PushPiece(matrix: seq<byte>, start: nat, finish: nat, ghost all: seq<Msg>)
      requires start < finish <= |matrix|
      requires finish - start == (if |matrix| - start < LED_ARRAY_SIZE then |matrix| - start else LED_ARRAY_SIZE)
      requires toQueue.queue + Chunks(ids.serialId, matrix[start..]) == all
      modifies toQueue, toQueue.condition, ids
      ensures toQueue.queue + Chunks(ids.serialId, matrix[finish..]) == all
      ensures Ids(ids.serialId, |Chunks(ids.serialId, matrix[finish..])|)
              == Ids(old(ids.serialId), |Chunks(old(ids.serialId), matrix[start..])|)
      ensures old(toQueue.queue) < toQueue.queue
      ensures toQueue.condition.waiting == old(toQueue.condition.waiting)
      ensures toQueue.condition.notified == Told(old(toQueue.condition.notified), old(toQueue.condition.waiting),
                                                 old(toQueue.queue), toQueue.queue)
    {
      ChunksStep(ids.serialId, matrix, start, toQueue.queue);
      PushColumns(matrix[start..finish]);
    }

    method Suspend()
      modifies this`suspended
      ensures suspended
    {
      suspended := true;
    }

    method Resume(rendered: Option<seq<byte>>)
      modifies this`suspended, toQueue, toQueue.condition, ids
      ensures !suspended
      ensures toQueue.queue == old(toQueue.queue)
              + if |old(toQueue.queue)| >= 3 || rendered.None? then []
                else Chunks(old(ids.serialId), rendered.value)
      ensures ids.serialId == Ids(old(ids.serialId), |toQueue.queue| - |old(toQueue.queue)|)
      ensures toQueue.condition.waiting == old(toQueue.condition.waiting)
      ensures toQueue.condition.notified == Told(old(toQueue.condition.notified), old(toQueue.condition.waiting),
                                                 old(toQueue.queue), toQueue.queue)
    {
      suspended := false;
      InfoPush(rendered);
    }

    /** The value reply to a query, unless the player's command failed (`good`) or its output does
        not split into a value and a range; the player cannot recall its playlist, the Pi does. */
    method ReplyValue(good: bool, parameter: byte, info: Option<Info>)
      modifies toQueue, toQueue.condition, ids
      ensures !good || info.None? ==>
                toQueue.queue == old(toQueue.queue) && ids.serialId == old(ids.serialId)
      ensures good && info.Some? ==>
                toQueue.queue == old(toQueue.queue)
                + [Msg(NextId(old(ids.serialId)), MSG_ID_QUERY_NUMBER,
                       [parameter, if parameter == PARAMETER_PLAYLIST then playlistId else info.value.value,
                        info.value.min, info.value.max])]
                && ids.serialId == NextId(old(ids.serialId))
      ensures toQueue.condition.waiting == old(toQueue.condition.waiting)
      ensures toQueue.condition.notified == Told(old(toQueue.condition.notified), old(toQueue.condition.waiting),
                                                 old(toQueue.queue), toQueue.queue)
    {
      if !good || info.None? {
        return;
      }
      var value := info.value.value;
      if parameter == PARAMETER_PLAYLIST {
        value := playlistId;
      }
      var id := ids.Get();
      toQueue.Push(Msg(id, MSG_ID_QUERY_NUMBER, [parameter, value, info.value.min, info.value.max]));
    }

    /** PARAM_SET from the menu. */
    method ParamSet(parameter: byte, sign: byte, delta: byte)
      modifies this`playlistId, this`issued
      ensures issued == old(issued) + Commands(old(playlistId), parameter, sign, delta)
      ensures playlistId == if parameter == PARAMETER_PLAYLIST
                               && (sign == PARAMETER_POSITIVE || sign == PARAMETER_NEGATIVE)
                               && NewPlaylistId(old(playlistId), sign, delta) > 0
                            then NewPlaylistId(old(playlistId), sign, delta) else old(playlistId)
    {
      if (parameter != PARAMETER_VOLUME && parameter != PARAMETER_TRACK
          && parameter != PARAMETER_PLAYLIST && parameter != PARAMETER_GO_AHEAD)
         || (sign != PARAMETER_POSITIVE && sign != PARAMETER_NEGATIVE) {
        return;
      }
      var command := Play;
      if parameter == PARAMETER_VOLUME {
        command := VolumeSet(sign == PARAMETER_POSITIVE, delta);
      } else if parameter == PARAMETER_TRACK {
        command := TrackSet(sign == PARAMETER_POSITIVE, delta);
      } else if parameter == PARAMETER_PLAYLIST {
        var newId: byte;
        if sign == PARAMETER_POSITIVE {
          newId := (playlistId + delta) % 256;
        } else if playlistId > delta {
          newId := playlistId - delta;
        } else {
          newId := 0;
        }
        command := PlaylistSet(newId);
        if newId > 0 {
          playlistId := newId;
        }
      } else if sign == PARAMETER_NEGATIVE {
        command := Halt;
      }
      issued := issued + [command];
    }
  }

  function Commands(stored: byte, parameter: byte, sign: byte, delta: byte): seq<Command> {
    var up := sign == PARAMETER_POSITIVE;
    if !up && sign != PARAMETER_NEGATIVE then []
    else if parameter == PARAMETER_VOLUME then [VolumeSet(up, delta)]
    else if parameter == PARAMETER_TRACK then [TrackSet(up, delta)]
    else if parameter == PARAMETER_PLAYLIST then [PlaylistSet(NewPlaylistId(stored, sign, delta))]
    else if parameter == PARAMETER_GO_AHEAD then [if up then Play else Halt]
    else []
  }

  lemma ChunksStep(id: byte, matrix: seq<byte>, start: nat, queue: seq<Msg>)
    requires start < |matrix|
    ensures var n := if |matrix| - start < LED_ARRAY_SIZE then |matrix| - start else LED_ARRAY_SIZE;
            queue + Chunks(id, matrix[start..])
            == (queue + [Msg(NextId(id), MSG_ID_LED_ARRAY, matrix[start..start + n])])
               + Chunks(NextId(id), matrix[start + n..])
  {
    var n := if |matrix| - start < LED_ARRAY_SIZE then |matrix| - start else LED_ARRAY_SIZE;
    assert matrix[start..][..n] == matrix[start..start + n];
    assert matrix[start..][n..] == matrix[start + n..];
  }

  /** A matrix is pushed whole and in order, in messages the link accepts: each carries a
      serial id and 1 to 20 columns, and all but the last carry 20. */
  lemma {:induction false} ChunksCarry(id: byte, matrix: seq<byte>)
    ensures var msgs := Chunks(id, matrix);
            && Columns(msgs) == matrix
            && (forall i | 0 <= i < |msgs| ::
                  Sendable(msgs[i]) && msgs[i].id == MSG_ID_LED_ARRAY && msgs[i].serial == Ids(id, i + 1)
                  && 0 < |msgs[i].payload| <= 20 && (i + 1 < |msgs| ==> |msgs[i].payload| == 20))
    decreases |matrix|
  {
    if matrix != [] {
      var n := if |matrix| < LED_ARRAY_SIZE then |matrix| else LED_ARRAY_SIZE;
      var msgs, rest := Chunks(id, matrix), Chunks(NextId(id), matrix[n..]);
      ChunksCarry(NextId(id), matrix[n..]);
      assert msgs[1..] == rest;
      assert matrix[..n] + matrix[n..] == matrix;
      forall i | 0 <= i < |msgs|
        ensures Sendable(msgs[i]) && msgs[i].id == MSG_ID_LED_ARRAY && msgs[i].serial == Ids(id, i + 1)
        ensures 0 < |msgs[i].payload| <= 20 && (i + 1 < |msgs| ==> |msgs[i].payload| == 20)
      {
        if i > 0 {
          assert msgs[i] == rest[i - 1];
        } else {
          assert Ids(id, 1) == Ids(NextId(id), 0);
        }
      }
    }
  }
}
