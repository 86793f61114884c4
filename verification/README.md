# Verification of the radio display's Pi and AVR code

A Raspberry Pi program and an AVR share a LED display, knobs and a clock.  This project models
the parts of both whose correctness rests on more than one function and proves what they
promise.  `dafny verify dfyconfig.toml` checks everything.

## What is modelled

- **The Pi-AVR SPI link** (`Link`, `LinkInvariant`, `LinkProof`, `LinkTheorems`, `Liveness`,
  `Answering`, `Progress`, `ReplyRelease`, `EndToEnd`).  A state machine of the Pi's mcu-handle thread, the threads that push to it, the
  kernel's edge events, the byte exchange with the SPI interrupt, and the AVR main loop, with a
  step for each of them in any order.  `Slave`, `Decoder` and `Framing` are the functions its steps
  run; `AvrObjects`, `PiObjects` and `HandleObjects` are the classes of both ends, each method
  proved against those functions.
- **The ring buffer** (`RingBuffer`) under every buffer of the AVR, with the exact condition under
  which it is a bounded FIFO.
- **The I2C master** (`Twi`, `TwiRuns`, `TwiHistory`, `TwiObject`): packed requests, interrupt state
  machine, callbacks.
- **The menu** (`MenuModel`, `MenuRuns`, `MenuLog`, `MenuTheorems`, `MenuKnobs`, `MenuLimits`,
  `MenuObject`).
- **The timers and modes** (`AtTimers`, `CronTimer`, `HeartbeatTimer`, `ModeControl`, `TimerObjects`).

Each source file that changes variables in place has a class whose methods change fields in place;
their `ensures` tie the new state to a function of the old one, and the theorems are about runs of
those functions.

## Assumptions of the link

- One start-up reset: `Initial` is the state after it, and no later INT3 reset happens.  The rise of
  IRQ that comes with it is on its way to the Pi or over; both starts are in every theorem.
- `read_buf` stays strictly below its capacity (`ReadRoom`): a byte is exchanged only while it does.
- Edge events from then on reach the interrupt queue in order; a notification may be spurious.
- `ATOMIC_BLOCK` bodies and interrupts are atomic; a call of decode_try is split at every ring read,
  so that bytes may arrive in between.
- Messages that other Pi threads push carry a serial id unless they are a HANDSHAKE, an LED_ARRAY has at
  most 20 columns and no payload is longer than 26 bytes, as `src/pi/handle.cpp` makes them.
- What the menu answers to a query reply is a parameter of the step (`answered`); what the menu, the
  watch and the mode do besides are separate AVR steps (messages without serial id of up to 8
  payload bytes, drain on and off, radio mode on and off, IRQ raised).  shift_data is displayed in
  radio mode only.

## Assumptions of the menu

- Answers and names, with any contents, come while the menu is open, and the mode is not set from
  outside; `MenuLimits.LateAnswer` says what happens otherwise.

## Where code and documentation part

- `src/avr/ring.c` has no full flag: a fill that brings a ring with start > 0 to exactly its size
  reads as empty (`RingBuffer.ExactBoundary`).  The link keeps its rings away from that state
  (`EndToEnd.CallsAreSafe`).
- `src/avr/twi.h:74-82` allows lengths 1 to 128; 128 does not survive the shift in a uint8_t
  (`Twi.LengthSurvives`, `Twi.FullWriteIsTorn`).  The run theorems are about lengths 1 to 127 and
  a queue that is not topped.
- `src/avr/twi.c:204-207` compares a status with a mask bit by bit, so 0x48 and 0x58, not acknowledged, pass
  for 0x40 and 0x50, and 0x38, arbitration lost, for 0x18 and 0x28: a slave that does not answer its address
  for reading is read with SUCCESS (`TwiRuns.DeafSlave`; `TwiRuns.SuccessExactly` has the exact condition).
- The program asks for the edges of IRQ only after the AVR has confirmed the reset and raised the line
  (`src/pi/base.cpp:32-33`, `src/pi/spi-enable.cpp:52-70`, `src/pi/spi-interrupt.cpp:40`), so the first rise
  is missed.  Until the line has been low once the thread may sleep with VERSION unparsed
  (`Answering.SleepsOnVersion`) and a request may stay unanswered for ever (`Answering.DoomedStays`); the exact
  conditions are in `LinkTheorems.NoLostWakeup`, `Answering.PolledExactly` and `Answering.AnswerableExactly`.
  The 6 bytes of SYNC_CLOCK (`src/pi/content.cpp:164-166`) against the 5 of VERSION are just enough
  to make it good (`Answering.FirstMessageDecides`).
- A freshly started Pi answers a playlist query with 0 (`src/pi/handle.cpp:98`, `src/pi/handle.cpp:176-178`)
  and the range from 1 that `src/bash/led-mpc.sh:25-33` prints, so the menu displays a value outside its
  range until the knob is turned clockwise (`MenuLimits.FirstSession`; `MenuTheorems.ValuesInRange` has
  the exact condition).
- Outside radio mode nothing is displayed, so a reply held back by shift_data waits for radio mode or for
  draining (`Answering.WalledStays`).
- APPLY turned clockwise while a name is shown closes the menu on a stale parameter, because
  `src/avr/menu.c:223-225` remembers the selected one only when coming from PARAM or VALUE
  (`MenuTheorems.ApplyOrCancel` has the exact condition).  The input: PLAYLIST clockwise, the answer
  5 of 1 to 10, PLAYLIST clockwise, the name timer, the name of 6, APPLY clockwise, the closing timer
  (`MenuLimits.StaleApply`).
- An answer or a matching name that comes when the menu is already closed is acted on
  (`src/avr/menu.c:758`, `src/avr/menu.c:778-786`) and ends in the menu mode
  (`MenuLimits.LateAnswer`).  The other run theorems of the menu are about answers in a session.
- A failed check on the last byte of a write leaves the same operations on the bus as a success;
  only the status tells them apart (`TwiHistory.SuccessIsWhole`).

## Model

| member | source | states |
|---|---|---|
| LinkTheorems.StopAndWait | src/pi/mcu-handle.cpp:44-147 | in every state of every interleaving exactly one copy of the pending serial id is about (request bytes, half-decoded request, reply slot or reply bytes) while the Pi is engaged and none otherwise; the slot is free whenever a reply is produced; no parsed reply mismatches, so the thread never throws |
| LinkTheorems.AnsweredInOrder | src/pi/mcu-block.cpp:24-60 | requests with a serial id are answered once each, in the order sent; at most the last is outstanding |
| LinkTheorems.NoLostReply | src/avr/spi.c:117-143 | with IRQ low every frame ever put into write_buf has been clocked into the Pi whole; the raised flag followed by queued and undelivered edges ends at the line's level if and only if the first rise was not missed at the program's start or the line has been low since |
| LinkTheorems.NoLostWakeup | src/util/condition-queue.hpp:57-71 | a Pi thread asleep and not notified has no edge queued and nothing it may send, although push notifies only on the empty edge; that a raised line still has an edge under way, and that with none under way every frame ever written is parsed, holds if and only if the first rise was not missed or the line has been low since |
| Liveness.RaisedLineIsPolled | src/pi/mcu-handle.cpp:44-75 | from every state of the invariant with IRQ high and its rise not missed the Pi's own moves and the delivery of edges alone lead to a transfer |
| Answering.PolledExactly | src/pi/mcu-handle.cpp:44-75 | with IRQ high and the thread between transfers they lead to one if and only if the rise was not missed or the thread is free and has a message to send |
| Answering.CanAlwaysAnswer | src/pi/mcu-handle.cpp:36-147 | from every reachable state with a request unanswered, unless the link is doomed, some continuation has the reply parsed and the lock released; in radio mode it takes only steps of the Pi thread, the kernel and the AVR |
| Answering.AnswerableExactly | src/pi/mcu-handle.cpp:36-147 | such a request can be answered if and only if the link is not doomed: the first rise missed, and the transfer under way neither longer than what write_buf holds nor bringing the reply |
| Answering.DoomedStays | src/pi/mcu-handle.cpp:57-66 | no step of the link, of other threads or of the user ends that |
| Answering.LongTransferHeals | src/avr/spi.c:137-142 | a transfer longer than what write_buf holds lowers the line and makes the missed rise good, in whatever order the other steps come, as long as the AVR writes nothing meanwhile |
| Answering.SleepsOnVersion | src/pi/base.cpp:32-36 | the failing run of the program's own start: three moves of the thread, and it sleeps on a raised line with VERSION unparsed and no edge under way |
| Answering.FirstMessageDecides | src/pi/content.cpp:164-166 | from that start the first message can be answered if and only if its payload has two bytes, as that of SYNC_CLOCK, or more |
| Answering.WalledStays | src/avr/mode.c:56-60 | outside radio mode a reply held back by shift_data stays so through every step but radio mode and the start of draining |
| Progress.WrittenReplyArrives | src/pi/mcu-handle.cpp:124-146 | once a reply is written, every run in any order of steps that exchanges and parses more bytes than its rank has it parsed |
| Progress.Forced | src/avr/spi.c:124-143 | whatever step is taken, the written reply is parsed or no farther from it, and nearer after a byte of it exchanged or a byte parsed |
| Liveness.HighLine | src/avr/spi.c:117-143 | with a request unanswered and the link settled (the Pi between transfers, no request on the way, room in read_buf and shift_data, and the reply in the slot only if write_buf has no room for it), IRQ is high |
| LinkTheorems.FramesAndFiller | src/avr/spi.c:124-143 | the bytes on their way to the Pi are whole frames in the order written, with nothing but 240 between them after the byte SPDR began with |
| LinkTheorems.RepliesInOrder | src/avr/encode.c:14-125 | the Pi parses the AVR's frames once each, in order |
| LinkTheorems.BackPressureIsLossless | src/avr/postpone.c:24-53 | no LED_ARRAY fill outside drain mode is ever refused; write_buf stays at or below 241 bytes and shift_data at or below 249 of 255 |
| LinkTheorems.StatusSays | src/avr/decode.c:40-96 | every decoded request with a serial id has one STATUS reply with its serial and message id in the slot at once; an LED_ARRAY always gets success, an unknown id STATUS_UNKNOWN_MSG |
| LinkTheorems.BackPressureDrains | src/avr/postpone.c:24-29 | while a reply is held back, whichever buffer holds it back can be drained: shift_data is long enough to be displayed, which is enabled in radio mode; a ring read makes progress; or IRQ is high and the Pi is awake, about to be woken, or has missed the rise |
| LinkTheorems.ColumnOrder | src/avr/flush.c:74-92 | pushed messages are decoded once each, in order; in every state the columns shown since draining last began and those queued are exactly those of the messages decoded since it last ended, a contiguous stretch of the columns pushed |
| EndToEnd.MatricesInOrder | src/pi/handle.cpp:470-490 | for any matrices and in every state, the columns shown since draining last began and those queued are a contiguous stretch of the matrices' columns, right behind what draining dropped, through chunking, framing, byte exchange and decoding |
| EndToEnd.CallsAreSafe | src/avr/decode.c:112-155 | in every reachable state decode_try, the SPI interrupt and the writers of write_buf may be called: payloads fit in_buf, and no ring comes to its ambiguous full state |
| LinkProof.StepKeeps | src/pi/mcu-handle.cpp:36-147 | the link's invariant is kept by every step of the Pi thread, the pushing threads, the SPI interrupt, the AVR main loop and the kernel's edges |
| LinkProof.RunKeeps | src/avr/avr.c:72-79 | the invariant holds in every state of every run |
| LinkInvariant.InitialInv | src/avr/spi.c:145-156 | the invariant holds after the start-up reset with the VERSION message in write_buf, whether or not the Pi gets to know of the rise of IRQ |
| LinkProof.TakeRequest | src/avr/decode.c:117-154 | a ring read advances inside the first request on the way or completes exactly that request |
| LinkProof.TakeReply | src/pi/mcu-parse.cpp:15-36 | a byte parsed is filler or belongs to the first frame on the way, which comes out exactly when complete |
| Framing.RoundTrip | src/pi/mcu-decode.hpp:55-79 | messages of 2 to 255 bytes with any payload, framed and separated by any bytes but the eye-catch, come out of the parser exactly, in order, leaving it empty |
| Framing.ParserScans | src/pi/mcu-parse.cpp:15-36 | on every byte stream whatsoever the byte-wise parser reads what a frame-by-frame reading of the stream gives, and keeps nothing but the start of a frame |
| Framing.BufferBound | src/pi/mcu-parse.cpp:28-33 | the parser's buffer is empty or starts with the eye-catch, and stays shorter than max(4, size + 2) |
| Framing.PrefixOut | src/pi/mcu-parse.cpp:15-36 | whatever part of a stream has arrived, the messages out so far are the first ones |
| Framing.McuParse.PushByte | src/pi/mcu-parse.cpp:15-36 | one pushed byte changes the buffer and returns a message as the specification of the parser says |
| Framing.Unwrap | src/pi/mcu-decode.hpp:55-79 | drops what precedes the eye-catch and takes the two framing bytes off a complete frame only |
| Framing.Join | src/pi/mcu-encode.hpp:49-75 | serial, id and the payload parts in order |
| Framing.WrapMsg | src/pi/mcu-encode.hpp:43-47 | eye-catch, length and the message itself |
| Decoder.DecoderAgrees | src/avr/decode.c:112-155 | for any interleaving of arrivals and ring reads the AVR's decoder yields a prefix of what the Pi's parser yields on the same bytes, and all of it, with the same unfinished frame, once no read can succeed |
| Decoder.CallIsRun | src/avr/decode.c:112-155 | one call of decode_try is at most five such reads in a row |
| Decoder.CallShrinks | src/avr/decode.c:112-155 | a call takes a byte if it can, and ends with the message it has completed, between frames, or where the bytes run out |
| Decoder.CallsFinish | src/avr/decode.c:112-155 | as many calls as there are bytes decode everything that can be decoded |
| Slave.TryIsReads | src/avr/decode.c:112-155 | a call with its dispatch is at most five of the link's ring reads |
| Slave.TryDecodes | src/avr/decode.c:148-154 | a call decodes what the decoder alone would, and dispatches it |
| LinkProof.ReadEffect | src/avr/decode.c:40-96 | a ring read produces at most one reply: exactly one STATUS with the request's serial id, or none for a message without one |
| AvrObjects.Spi.TransferComplete | src/avr/spi.c:124-143 | the interrupt's effect on read_buf, write_buf, SPDR and IRQ, overflow included |
| AvrObjects.Spi.WriteArray | src/avr/spi.c:117-122 | all or nothing into write_buf, IRQ raised in both cases |
| AvrObjects.Spi.ReadArray | src/avr/spi.c:97-100 | all n bytes in order, or nothing |
| AvrObjects.Postpone.IsEnoughSpace | src/avr/postpone.c:19-29 | 26 bytes free in each of write_buf, read_buf and shift_data |
| AvrObjects.Postpone.Try | src/avr/postpone.c:43-53 | writes the kept reply out and frees the slot when all three buffers have room, otherwise changes nothing; ReplyRelease says in bytes when that is and what it is for |
| AvrObjects.Postpone.Message | src/avr/postpone.c:55-73 | a message without serial id is written or dropped; one with it takes the free slot |
| ReplyRelease.ReplyLeavesRoom | src/avr/postpone.c:24-29 | right after a reply is released, any frame of up to 26 bytes clocked in with nothing read from read_buf between goes there whole, and what comes back is SPDR, write_buf, the reply and 240, never SPI_READ_OVERFLOW |
| ReplyRelease.ReleaseExactly | src/avr/postpone.c:43-53 | in every reachable state a reply leaves the slot if and only if write_buf, read_buf and shift_data hold 229 bytes each at most; it is then written whole behind what write_buf holds and IRQ is high; else nothing changes |
| ReplyRelease.SendExactly | src/avr/postpone.c:58-63 | a message of the AVR's own is written whole, byte for byte, if write_buf holds 229 bytes at most, whatever the other buffers hold, and is dropped otherwise |
| ReplyRelease.SlotHolds | src/avr/postpone.c:65-71 | a reply takes the slot if it is free and never replaces the one there |
| ReplyRelease.FrameFits | src/avr/spi.c:124-143 | a frame that fits into read_buf arrives whole, and what comes back is SPDR, then write_buf, then 240 |
| ReplyRelease.OverflowLoses | src/avr/spi.c:124-133 | a byte that finds read_buf full is lost; nothing is sent for it, IRQ stays, and the 245 returned next means nothing to a parser between frames |
| ReplyRelease.ReplyBytes | src/avr/decode.c:40-96 | in every reachable state the reply to a decoded request is the six bytes 250, 4, serial, 11, status, id, with status 0 for LED_ARRAY and SYNC_CLOCK, 0 or 1 for a query as the menu took it or not, and 2 for any other id |
| AvrObjects.Encode.Msg | src/avr/encode.c:14-125 | builds the frame of eye-catch, size, serial, id and payload and hands it on |
| AvrObjects.Decode.Try | src/avr/decode.c:112-155 | one call of decode_try, header bytes, payload and dispatch, has the effect the link's state machine gives it |
| AvrObjects.Decode.Dispatch | src/avr/decode.c:40-96 | the action and the one reply of each message id |
| AvrObjects.Flush.ShiftColumns | src/avr/flush.c:74-80 | appends all columns, or refuses; swallows them while draining |
| AvrObjects.Flush.ShiftDisplay | src/avr/flush.c:59-92 | shows the first 64 columns, 32 a display, and drops one |
| AvrObjects.Flush.DrainStart | src/avr/flush.c:94-98 | empties shift_data and starts draining |
| PiObjects.ConditionQueue.Push | src/util/condition-queue.hpp:57-71 | appends, and notifies exactly when the queue was empty |
| PiObjects.ConditionQueue.Pop | src/util/condition-queue.hpp:76-92 | takes the first record, or none |
| PiObjects.McuBlock.Engage | src/pi/mcu-block.cpp:24-39 | keeps the first non-zero id: the new one if it is not 0 and nothing or the same is pending |
| PiObjects.McuBlock.Relax | src/pi/mcu-block.cpp:41-60 | false exactly on a mismatch, which changes nothing |
| PiObjects.McuHandle.PollInterrupt | src/pi/mcu-handle.cpp:48-52 | takes at most one edge and decides whether to poll again |
| PiObjects.McuHandle.ShouldWait | src/pi/mcu-handle.cpp:57-66 | the wait condition |
| PiObjects.McuHandle.SendStep | src/pi/mcu-handle.cpp:68-101 | sends only when not engaged, engaging with the message's serial id |
| PiObjects.McuHandle.FinishWrite | src/pi/mcu-handle.cpp:124-146 | parses the bytes of a transfer, relaxes on each message and passes on, in order, exactly the messages that a frame-by-frame reading of the bytes gives; at a mismatch, the first of them |
| PiObjects.McuHandle.Pass | src/pi/mcu-handle.cpp:44-74 | one uninterrupted pass of the loop, with whatever bytes its transfers return: the frames clocked out are IDLE (250, 2, 0, 3) if the line was raised and then the first message if one is sent; unless ids mismatch, from_queue grows by exactly the messages in the bytes of the poll and of the send, in order |
| PiObjects.McuHandle.PollFrame | src/pi/mcu-handle.cpp:46-47 | clocks out IDLE and passes on every message in the bytes that come back, behind those that wait already |
| PiObjects.McuHandle.SendFrame | src/pi/mcu-handle.cpp:69-73 | sends the first message if and only if nothing is pending and there is one, and passes on every message in the bytes that come back |
| EndToEnd.PassedOnIsReceived | src/pi/mcu-handle.cpp:124-146 | in every reachable state parsing a transfer meets no mismatch, and what it passes on is what the link records as received |
| PiObjects.McuHandle.PushMessage | src/util/condition-queue.hpp:57-71 | a push to the to-queue from another thread is the link's step: it wakes the sleeping thread exactly when that queue was empty |
| PiObjects.McuHandle.PushEdge | src/util/condition-queue.hpp:57-71 | the same for an edge and the interrupt queue |
| PiObjects.PassIsMoves | src/pi/mcu-handle.cpp:44-74 | such a pass is a run of the link's Pi from Top, move by move |
| PiObjects.ParseAllIsMoves | src/pi/mcu-handle.cpp:124-146 | that loop is a run of the link's Pi moves, which records as received what the parser puts out |
| PiObjects.McuId.Get | src/pi/mcu-id.hpp:25-32 | the next id, never the one to ignore |
| PiObjects.IdsCycle | src/pi/mcu-id.hpp:25-32 | the ids run through 1 to 255 and repeat only then |
| HandleObjects.Handle.InfoPush | src/pi/handle.cpp:446-498 | pushes the content cut up, or nothing when rendering failed, while suspended or when the queue holds three messages; uses one serial id a message, and notifies the link thread exactly when the queue was empty |
| HandleObjects.ChunksCarry | src/pi/handle.cpp:470-490 | the messages carry the matrix whole and in order, 1 to 20 columns each and 20 in all but the last, with consecutive serial ids |
| HandleObjects.Handle.Resume | src/pi/handle.cpp:416-420 | ends the suspension and pushes the content |
| HandleObjects.Handle.ReplyValue | src/pi/handle.cpp:148-187 | value reply to a query, with the stored id for a playlist; nothing when the player's command failed or its output does not split |
| HandleObjects.Handle.ParamSet | src/pi/handle.cpp:318-365 | the command issued and the playlist id kept for each PARAM_SET, ill-formed ones ignored |
| RingBuffer.ExactBoundary | src/avr/ring.c:21-183 | a run of any ring operations answers and holds what a bounded FIFO does if and only if no fill brings a ring with start > 0 to exactly size bytes |
| RingBuffer.StepRefines | src/avr/ring.c:49-162 | one operation agrees with the bounded FIFO exactly outside that case |
| RingBuffer.StaleStart | src/avr/ring.c:49-97 | a start index read before any number of drains, with reset and wrap, never makes the occupancy too small |
| RingBuffer.StaleFill | src/avr/ring.c:49-70 | a fill after unseen drains refuses or is a correct append |
| RingBuffer.Ring.ByteFill | src/avr/ring.c:49-70 | appends one byte in place, with a possibly stale start, or refuses |
| RingBuffer.Ring.ByteDrain | src/avr/ring.c:72-97 | takes the first byte in place, resetting an emptied ring to 0 |
| RingBuffer.Ring.ByteGet | src/avr/ring.c:99-125 | the byte at an index without taking it |
| RingBuffer.Ring.ArrayFill | src/avr/ring.c:127-142 | all bytes or none |
| RingBuffer.Ring.ArrayDrain | src/avr/ring.c:144-162 | the first n bytes in order, or nothing |
| TwiHistory.ExactlyOnce | src/avr/twi.c:160-197 | over every run of submissions, interrupts and twi_try calls each accepted request is started in order and answered by exactly one callback, with its own id, tag and length and with the status and data of what the bus saw for it; all are answered when the engine has nothing left |
| TwiHistory.OnTheBus | src/avr/twi.c:209-328 | in every run and for every 7-bit address each transaction sends twice the address first, and twice the address plus one after a repeated START, which only reads have and before which nothing is received; it may stop at any point |
| TwiHistory.SuccessIsWhole | src/avr/twi.c:209-328 | SUCCESS means the whole wire format was driven, and for a read is reported exactly when as many bytes as asked for were taken, which the callback then gets; any other status names the phase at which STOP was sent |
| TwiHistory.EveryRequestEnds | src/avr/twi.c:396-418 | while a request is unanswered the next interrupt or call brings the answers strictly nearer |
| TwiHistory.AdvanceKeeps | src/avr/twi.c:209-418 | every event keeps the invariant of queue, engine and history |
| TwiRuns.Transaction | src/avr/twi.c:209-328 | for any status sequence a write drives SLA+W, register, data and STOP in len + 3 interrupts and a read the repeated-start form in len + 5 (UM10204, section 3.1.10), cut short with STOP and the phase's error at the first failed check; SUCCESS and index len exactly when none failed |
| TwiRuns.OnTheWire | src/avr/twi.c:199-202 | for every 7-bit address the wire format is, operation by operation: twice the address, register and data, or twice the address, register, repeated START, twice the address plus one and the bytes received; then STOP |
| TwiRuns.SuccessExactly | src/avr/twi.c:204-207 | of the status codes a master can find, a transaction reports SUCCESS if and only if each phase went well, or lost arbitration while sending (0x38), or was not acknowledged while receiving (0x48, 0x58) |
| TwiRuns.CheckExactly | src/avr/twi.c:204-207 | the mask test of one phase passes exactly then |
| TwiRuns.DeafSlave | src/avr/twi.c:299-315 | the failing input: a slave that does not acknowledge SLA+R is read with SUCCESS, whatever the lines held |
| TwiRuns.ReceivedData | src/avr/twi.c:301-315 | a read without failed check holds the bytes received, in order |
| TwiRuns.PhaseStep | src/avr/twi.c:209-328 | one interrupt drives the next operation of the wire format or stops; the mode stays in the write or the read phases and the index inside m_data |
| Twi.Interrupt | src/avr/twi.c:209-328 | from any sound state the index and the mode stay in bounds |
| Twi.UnpackPack | src/avr/twi.c:367-394 | a request at the head of the queue is recovered with the same action, id, tag, length, register and data, and taken off whole |
| Twi.EnqueuedWhole | src/avr/twi.c:160-197 | an accepted request is in the queue whole, behind the others, if and only if it does not top a queue that starts above 0 |
| Twi.LengthSurvives | src/avr/twi.c:169 | the length survives the shift into a uint8_t if and only if it is below 128 |
| Twi.RecoveredExactly | src/avr/twi.c:367-394 | a request is recovered and taken off whole if and only if it is shorter than 128 bytes |
| Twi.QueueIndependent | src/avr/twi.c:209-328 | an interrupt neither reads nor changes the queue, so interrupts between the bytes of an enqueue are as good as before it |
| Twi.FullWriteIsTorn | src/avr/twi.c:160-180 | what happens to an accepted write of 128 bytes: it starts with length 0 and its data stay in the queue as if they were requests |
| TwiObject.Master.Isr | src/avr/twi.c:209-328 | the interrupt on the static variables and m_data in place |
| TwiObject.Master.WriteArray | src/avr/twi.c:160-180 | accepts id 0 and 1 to 128 bytes if the ring has room for them and four more, and puts the packed request into it byte by byte |
| TwiObject.Master.ReadArray | src/avr/twi.c:182-197 | the same for a read request, which needs room for four |
| TwiObject.Master.SetAction | src/avr/twi.c:367-394 | takes the next request off the ring into the static variables and m_data |
| TwiObject.Master.Try | src/avr/twi.c:396-418 | reports a finished action or starts the next |
| MenuTheorems.SessionDiscipline | src/avr/menu.c:199-377 | over every run: drain is on exactly in APPLY, PARAM and VALUE; SUSPEND and RESUME alternate, SUSPEND first, and the Pi is suspended exactly while a connected menu drains; a closed menu is back in the mode the run began in, TAG included; an open one can be closed |
| MenuKnobs.KnobTurnsItsValue | src/avr/menu.c:672-731 | in every reachable state a click of the PLAYLIST, TRACK or VOLUME knob of a connected menu selects the parameter of that name, moves its value by one if the Pi has answered about it in this session, moves no other value, and says nothing but SUSPEND when it opens the menu or ends a name, and the question about that parameter if it was neither asked nor answered |
| MenuKnobs.UnconnectedKnob | src/avr/menu.c:677-678 | without the Pi each of these knobs selects the brightness and moves it by one between 0 and 15; nothing else changes and nothing is said |
| MenuKnobs.ParamKnob | src/avr/menu.c:418-428 | the PARAM knob goes through POWER_OFF to REBOOT one by one, or comes to POWER_ON when the Pi is not connected; it moves no value and asks for none |
| MenuKnobs.AnswerNamed | src/avr/menu.c:738-768 | the Pi's answer about PLAYLIST, TRACK or VOLUME becomes the range and value of that name and changes no other |
| MenuKnobs.AnswerRefused | src/avr/menu.c:741-744 | an answer about anything else, and no other, is refused |
| MenuKnobs.NameNamed | src/avr/menu.c:770-789 | a name is displayed, for 8 seconds and with RESUME, if and only if it is the one awaited of the parameter selected; any other changes nothing |
| MenuKnobs.RequestNamed | src/avr/menu.c:385-398 | the name asked for is that of the playlist or track displayed, and only if nothing moved since the knob did |
| MenuKnobs.TagNamed | src/avr/menu.c:400-416 | turning the PLAYLIST or TRACK knob on awaits the name of what it has come to, the VOLUME knob none |
| MenuKnobs.ChosenNamed | src/avr/menu.c:288-304 | what takes effect at closing is the parameter selected, also while a name is shown; with APPLY the one selected before, with CANCEL nothing |
| MenuKnobs.CloseNamed | src/avr/menu.c:305-372 | closing on anything but a value of the Pi says the message of that name (NEXT is TRACK, positive, 1 and so on) and no other, sets the brightness to 0, 7, 15 or the value displayed, and boots the Pi for POWER_ON alone |
| MenuKnobs.OrdersArrive | src/pi/handle.cpp:318-365 | NEXT and PREVIOUS reach the player as one track up or down, PLAY and STOP as themselves |
| MenuKnobs.ChangeArrives | src/avr/menu.c:288-377 | a change that is sent reaches the player as volume or track, up or down by the difference between the Pi's last answer and the value displayed, or as the playlist displayed |
| MenuTheorems.PausedAlternates | src/avr/menu.c:199-213 | the suspension fold used in the proof says exactly that the marks alternate |
| MenuTheorems.ValuesInRange | src/avr/menu.c:430-458 | for any clicks and answers every value lies between what was last answered and the range answered, and is in that range if and only if the answer was or its knob has been turned far enough since; each value is asked for at most once a session |
| MenuTheorems.ChangeAgrees | src/avr/menu.c:288-377 | closing on a value the Pi keeps sends a change exactly when it was asked for and answered (and moved, for a playlist); old value plus signed delta is the value displayed, and it is the playlist id the Pi then loads; it is in the answered range under the same condition |
| MenuLimits.FirstSession | src/pi/handle.cpp:176-185 | the failing input: the first playlist answer of a freshly started Pi, 0 of 1 to n, is displayed outside its range; turning back leaves it there, one click clockwise brings it in |
| MenuTheorems.BrightnessAgrees | src/avr/menu.c:305-322 | closing on the brightness sets it to the value displayed; closing on a value of the Pi or on nothing leaves it |
| MenuTheorems.ApplyOrCancel | src/avr/menu.c:199-231 | in every open state but APPLY: the APPLY knob turned clockwise closes the menu on the parameter selected if and only if no name is shown or the parameter APPLY was last turned for is the one selected; counter-clockwise it closes on nothing, which has no effect but RESUME |
| MenuLimits.StaleApply | src/avr/menu.c:223-225 | the failing input: a playlist chosen, its name shown, APPLY turned clockwise; the session ends with RESUME and the change is never sent |
| MenuLimits.LateAnswer | src/avr/menu.c:738-789 | a closed menu stays closed on an answer or a name if and only if it ignores it; otherwise the closing timer leaves the device in the menu mode, and after an answer with a RESUME that no SUSPEND went before |
| MenuTheorems.SignAbsMoves | src/avr/menu.c:260-272 | sign and absolute value take the old value to the new one, on the AVR and in the Pi's playlist arithmetic |
| MenuRuns.ShapeKept | src/avr/menu.c:686-789 | every event keeps modes, drain, timer, selectable parameters and ranges right |
| MenuLog.PauseKept | src/avr/menu.c:199-231 | every event keeps the Pi's suspension right |
| MenuLog.AskedKept | src/avr/menu.c:154-175 | every event keeps the count of questions at what param_flag says |
| MenuLog.AnsweredKept | src/avr/menu.c:738-768 | a value is known exactly when answered in this session, with the range and old value last answered |
| MenuObject.Controller.QuerySource | src/avr/menu.c:154-175 | asks for the selected value once, on the static variables in place |
| MenuObject.Controller.SetState | src/avr/menu.c:199-231 | change of state with its messages, modes, drain and parameter range, on the static variables in place |
| MenuObject.Controller.Start | src/avr/menu.c:274-286 | opens the menu, on the static variables in place |
| MenuObject.Controller.Stop | src/avr/menu.c:288-377 | closes it, with the effect of the chosen parameter, on the static variables in place |
| MenuObject.Controller.SelectValue | src/avr/menu.c:430-458 | one click of a value knob, only on a known value, on the static variables in place |
| MenuObject.Controller.HandleRotor | src/avr/menu.c:686-731 | a click of any knob in any state, on the static variables in place |
| MenuObject.Controller.ParameterValue | src/avr/menu.c:738-768 | the Pi's answer, on the static variables in place |
| MenuObject.Controller.ParameterName | src/avr/menu.c:770-789 | the Pi's name is ready, on the static variables in place |
| MenuObject.Controller.TagRequest | src/avr/menu.c:385-398 | asks for a name if nothing moved since, on the static variables in place |
| AtTimers.OneShot | src/avr/at.c:35-68 | a scheduled callback is invoked exactly once, at the max(1, delay)-th verify after it was last scheduled, whatever the other ids and callbacks do |
| AtTimers.PostponedShot | src/avr/at.c:70-76 | postponing starts the count anew and revives nothing |
| AtTimers.CancelledNever | src/avr/at.c:78-86 | a cancelled callback is never invoked |
| AtTimers.Countdown | src/avr/at.c:35-47 | from any state, the callback left alone fires at the visit its count has left and at no other |
| AtTimers.CronSlotLive | src/avr/at.c:26-86 | the cron slot is enabled exactly while a callback is pending, whatever the callbacks do |
| AtTimers.VerifyVisits | src/avr/at.c:35-47 | a verify visits every slot once |
| AtTimers.OwnScheduleLost | src/avr/at.c:41-42 | a callback is invoked once and its slot cleared after it, whatever it did to its own id; not even its own scheduling makes it run again |
| CronTimer.PeriodicTicks | src/avr/cron.c:44-54 | an id enabled with factor f and left alone is found due floor(n / max(1, f)) times in n ticks, its counter is n mod max(1, f), and with room in the queue it is queued as often |
| CronTimer.QueueConserves | src/avr/cron.c:33-54 | with room, cron_try takes off what the ticks found due, in that order |
| CronTimer.InvokedOnce | src/avr/cron.c:33-42 | over every run an id left alone is invoked once for each of its entries that cron_try takes off if it has a callback, and never if it has none |
| CronTimer.PeriodicCalls | src/avr/cron.c:33-54 | with room in the queue an id enabled with a callback and factor f and left alone is invoked floor(n / max(1, f)) times in n ticks, and once for each entry queued before, less those still queued |
| CronTimer.DisabledNever | src/avr/cron.c:97-110 | an id disabled and left alone is never found due again and never invoked, whatever is still in the queue |
| CronTimer.TimerStep | src/avr/cron.c:70-110 | the hardware timer stays on exactly while a callback is registered, except when the only registered id is enabled with a null callback |
| CronTimer.TimerRuns | src/avr/cron.c:70-110 | with non-null callbacks it is so after every sequence of events |
| HeartbeatTimer.MissedBeats | src/avr/heartbeat.c:23-58 | report on exactly the (1 + max)-th verify since the last confirm or start, provoke on exactly the 2nd to the max-th, then nothing |
| HeartbeatTimer.StartedBeats | src/avr/heartbeat.c:40-53 | a started heartbeat never confirmed reports exactly once, at the (1 + max)-th verify if and only if max is below 255; 255 wraps and reports at the first |
| ModeControl.RadioLasts | src/avr/mode.c:26-62 | unless another mode is set from outside, radio mode lasts all through a run if and only if no stretch of it without a confirm has more than three verifies, counting those missed before the run |
| ModeControl.SlotsAndConnection | src/avr/mode.c:36-67 | heartbeat and flush slots are live exactly in radio mode, every 50th and every 5th tick; the connection flag says that the last of WATCH and RADIO entered was RADIO |
| TimerObjects.Cron.InterruptFunction | src/avr/cron.c:44-54 | queues every id that is due |
| TimerObjects.Cron.IsRequired | src/avr/cron.c:70-80 | some callback is registered |
| TimerObjects.Cron.Enable | src/avr/cron.c:82-95 | registers an id and starts the timer |
| TimerObjects.Cron.Disable | src/avr/cron.c:97-110 | unregisters an id and stops an idle timer |
| TimerObjects.Cron.Try | src/avr/cron.c:33-42 | takes one id off and finds its callback |
| TimerObjects.At.Empty | src/avr/at.c:26-33 | no callback is pending |
| TimerObjects.At.IsEmpty | src/avr/at.c:88-94 | a slot holds no callback; false for an id out of range |
| TimerObjects.At.Verify | src/avr/at.c:35-47 | counts every slot and invokes what is due |
| TimerObjects.At.Act | src/avr/at.c:49-86 | schedule, postpone and cancel |
| TimerObjects.Station.ModeSet | src/avr/mode.c:36-62 | stops everything and starts what the new mode needs |
| TimerObjects.Station.Verify | src/avr/heartbeat.c:28-38 | counts a miss, provokes or reports |

## Left out

- LinkTheorems.ColumnOrder: messages decoded while draining, and columns queued when it begins, are dropped on purpose; the theorem says where the stretch begins, not how much is dropped.
- EndToEnd.MatricesInOrder: rendering text to a matrix (`src/pi/render.cpp`) is not part of this model.
- Answering.CanAlwaysAnswer: shows that a continuation exists, not that every fair run takes it; AVR messages without a serial id may fill write_buf again and again before the reply gets its 26 bytes. From the moment the reply is written, Progress.WrittenReplyArrives is about every run.
- AvrObjects.Encode.Msg: one method with a payload of 0 to 8 bytes stands for encode_msg_0 to encode_msg_8.
- AvrObjects.Decode.Try: the four flags of `decoded` are a count, since they are set in order; menu, watch and mode calls of decode() are the parameter `answered` and separate steps of the link.
- PiObjects.McuHandle.Pass: nothing happens in between; what other threads do between its queue accesses is the link's state machine. Logging and the message trace are not modelled.
- HandleObjects.Handle.InfoPush: content selection and rendering, with its failure, are the parameter `rendered`.
- HandleObjects.Handle.ReplyValue: splitting the player's output into numbers is the parameter `info`.
- TwiObject.Master.Isr: registers are parameters and the bus operation is a result; TWBR, slave registration and the constants of avr-libc's util/twi.h beyond the six status codes are not modelled.
- TwiHistory.ExactlyOnce: lengths of 128 and enqueues that top the queue are outside its runs, since they fail (Twi.RecoveredExactly, Twi.EnqueuedWhole); an enqueue is one step, which Twi.QueueIndependent justifies.
- MenuTheorems.SessionDiscipline: the mode is not set from outside during a run, and answers arrive only while the menu is open; what a late answer does is MenuLimits.LateAnswer.
- MenuTheorems.ChangeAgrees: the Pi's stored playlist id is taken to be the one it answered.
- MenuObject.Controller.Stop: the messages sent, the mode, drain, brightness and boot line are fields of the menu's state; labels and numbers drawn on the display are not modelled.
- TimerObjects.At.Verify: a callback is the list of timer operations it performs; the cron slot is one flag.
- CronTimer.PeriodicTicks: an id counts as queued only while the 64-byte queue has room for all four ids.
- The INT3 reset after start-up and thread shutdown (`m_go`, `stop`).
- AVR registers, pins, delays and the display's bit-banging (`src/avr/display.c`, `counter.c`, `boot.c`, `buzz.c`), and rotor decoding.
- SPI device, GPIO, sockets, child processes, regular expressions, fonts and BCD conversion: I/O, library behaviour or finite data.
