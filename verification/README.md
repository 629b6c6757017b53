# mbp2018-bridge-drv: verified model of the VHCI transfer engine, the VHCI message queues and the audio message/PCM core

This project models, in Dafny, the protocol engine of the T2 bridge driver's
virtual USB host controller (VHCI) and the integer core of its audio driver.

**VHCI transfer engine.**
- A *transfer queue* serves one USB endpoint. It keeps the client requests (URBs) linked to the endpoint, oldest first.
- It keeps a list of *deferred events*: device messages that arrived before the request they apply to could take them.
- It keeps a *giveback list* of completed requests, to be handed back to the USB core.
- Every URB runs a small state machine. Its steps are driven by device messages (transfer requests, control status) and by DMA completions. Its data moves through three submission rings: the asynchronous message queue, the inbound ring and the outbound ring.
- The model keeps a log of every descriptor posted to the device. It keeps each ring's free-slot count, so reservations and releases can be audited.

**VHCI message queues.**
- A *message queue* writes requests into a ring of fixed-size messages.
- An *event queue* posts receive slots and hands each completed one to a handler.
- A *command queue* runs one synchronous request/response cycle at a time. It sends the request, waits for the reply, and on a timeout sends one cancellation request (the opcode with bit 14 set) and waits for that. It then checks that the reply answers the request.

**Audio protocol.** Messages are byte buffers: a 16-byte header (type at byte 4, device id at bytes 5..12), then a base (kind and status words), then the fields of each kind. The writers lay a message out; the readers decode and check the kind. All integers are little-endian.

**Audio PCM.**
- The mapping from the coprocessor's stream description (format flags and bits per channel) to an ALSA sample format.
- The ALSA hardware record filled from that description.
- The trigger callback.
- The playback-position estimate.

**Modules.**
- `kernel.dfy` (`Kernel`): errno values, the fixed-width C integer types and their wrap-around.
- `vhci_message.dfy` (`VhciMessage`): the 16-byte VHCI message and its opcodes.
- `urb.dfy` (`VhciUrb`): every URB step as a function returning the new URB, the new ring state, the return code and whether the URB completed.
- `transfer.dfy` (`VhciTransfer`):
  - the transfer queue as a class whose fields are the lists above;
  - its operations are methods proved against specification functions on a value view of the queue.
- `queue.dfy` (`VhciQueue`):
  - the message, event and command queues as classes over an `array` ring;
  - the command cycle specified by a function `Exec`.
- `audio_protocol.dfy` (`AudioProtocol`):
  - the codec;
  - the readers as functions;
  - the writers as methods on a message buffer class.
- `pcm.dfy` (`Pcm`): the format table, the hardware record class, the trigger and the pointer.

**Where the code and the specification disagree, the model follows the code.**
- A bulk OUT URB of length zero finishes its data phase at once, but it is never handed back (`VhciUrb.ZeroLengthBulkOutIsNeverGivenBack`).
- An OUT URB whose completion moved fewer bytes than its length stays waiting for a completion. The next transfer request is deferred, not applied (`VhciUrb.PartialOutCompletionDefersNextRequest`).
- An IN URB is handed back on its first completion, whatever its size (`VhciUrb.InboundCompletesOnFirstCompletion`).
- A control URB is always handed back with status 0, whatever status the device reported.
- `aaudio_msg_read_set_property_response` accepts a reply of kind UPDATE_TIMESTAMP_RESPONSE and rejects SET_PROPERTY_RESPONSE (`AudioProtocol.SetPropertyResponseRejected`, `AudioProtocol.SetPropertyResponseAccepted`).
- `aaudio_msg_read_base` needs room for two bases, so a message holding only the header and one base is rejected (`AudioProtocol.ReadBaseRejectsBaseOnly`).

## Model

| member | source | states |
|---|---|---|
| VhciMessage.CancelKeepsIdentity | vhci/queue.c:219-234 | a cancellation request carries the identity of the request it cancels, with the cancel bit set |
| VhciMessage.RequestKey | vhci/queue.c:210 | the request's key keeps the low 14 bits and bit 15 of the opcode and clears bit 14, the cancel bit |
| VhciMessage.ReplyKey | vhci/queue.c:210 | the reply's key keeps the low 14 bits of the opcode and clears the two reply-tag bits: it is below 0x4000 and differs from the opcode by a multiple of 0x4000 |
| VhciMessage.ReplyTagsIgnored | vhci/queue.c:210 | setting either reply-tag bit never changes which request a reply answers |
| VhciUrb.IssueIn | vhci/transfer.c:307-323 | with both reservations held, an inbound transfer sends a transfer request for the rest of the buffer and posts one DMA descriptor from the received offset to the end of the URB's buffer; the URB then waits for its completion |
| VhciUrb.DataTransferInAsWritten | vhci/transfer.c:287-324 | the code as written: -ENOMEM exactly when the message or the inbound reservation fails |
| VhciUrb.ReservationLeakAsWritten | vhci/transfer.c:301-305 | with one free message slot and a full inbound ring, the as-written failure path loses the message slot and hands the inbound ring a slot it never reserved: the ring accounting breaks |
| VhciUrb.DataTransferIn | vhci/transfer.c:287-324 | corrected: -ENOMEM exactly when a reservation fails, and then nothing changes; otherwise the URB restarts from its received offset and waits for a completion; ring accounting is kept |
| VhciUrb.DataStart | vhci/transfer.c:326-337 | an OUT URB waits for a transfer request, or is complete at once when its length is 0; an IN URB starts its transfer; a failure changes nothing and returns -ENOMEM |
| VhciUrb.UrbInit | vhci/transfer.c:244-252 | a control URB waits for the setup request; any other URB starts its data phase |
| VhciUrb.DataUpdate | vhci/transfer.c:339-378 | only a transfer request reaching a URB that waits for one applies, else -EAGAIN with nothing changed; -EPIPE with nothing changed when the outbound ring is full; otherwise it sends min(rest of buffer, requested) bytes from the send offset and posts exactly that descriptor |
| VhciUrb.DataTransferCompletion | vhci/transfer.c:380-394 | a completion counts only while the URB waits for one; the received count grows by the size in u32; IN URBs, and OUT URBs that reached their length, finish with actual length = received count; a bulk URB is then handed back with status 0 |
| VhciUrb.ControlCheckStatus | vhci/transfer.c:397-409 | a control URB with a recorded status completes exactly when its data phase is done or the status is a failure outside the setup phase; it then returns -ENOENT and is handed back with status 0 |
| VhciUrb.ControlUpdate | vhci/transfer.c:411-442 | a status message is always recorded and completes the URB as ControlCheckStatus says; in the setup-request state a transfer request posts the setup packet if the outbound ring has room, and any other message is -EAGAIN; in the data phase a failing data update is the answer, and a succeeding one is followed by the status check (completion with -ENOENT exactly when the recorded status allows it); in any other state the answer is -EAGAIN with URB and rings untouched |
| VhciUrb.ControlTransferCompletion | vhci/transfer.c:444-470 | the setup completion starts the data phase, and a failure there completes the URB with that error; in the data phase the completion is counted and followed by the status check, which completes the URB exactly when its recorded status allows it; unrelated states change nothing |
| VhciUrb.UrbUpdate | vhci/transfer.c:472-478 | "not yet" (-EAGAIN) leaves the URB and the rings untouched, so a deferred message can be replayed; only control URBs complete on a message, with status 0 |
| VhciUrb.UrbTransferCompletion | vhci/transfer.c:480-486 | bulk completions post nothing; a finished URB is not changed |
| VhciUrb.UrbResume | vhci/transfer.c:488-498 | a parked URB is initialised (a failure leaves it parked); a URB waiting for a completion re-issues an inbound transfer, and on -ENOMEM it completes with -ENOMEM and nothing else changes |
| VhciUrb.NewUrb | vhci/transfer.c:205-215 | a fresh URB is parked, control exactly when the endpoint number is 0, with zero offsets and no status |
| VhciUrb.ZeroLengthBulkOutIsNeverGivenBack | vhci/transfer.c:326-337 | a zero-length bulk OUT URB is complete at once, yet no message applies to it and no completion changes or returns it |
| VhciUrb.PartialOutCompletionDefersNextRequest | vhci/transfer.c:380-394 | a bulk OUT completion shorter than the buffer leaves the URB waiting for a completion, and the next transfer request is refused with -EAGAIN |
| VhciUrb.InboundCompletesOnFirstCompletion | vhci/transfer.c:380-394 | an IN URB of 4096 bytes is handed back on a first completion of 2048, with actual length 2048 |
| VhciTransfer.ApplyHead | vhci/transfer.c:254-265 | a completed request leaves the list and goes to the head of the giveback list with its status; nothing is lost |
| VhciTransfer.ConservesAccounts | vhci/transfer.c:254-265 | across any matching step, every request linked before is still linked or among the entries just put on the giveback list, and nothing else is linked or put there |
| VhciTransfer.Delivered | vhci/transfer.c:76-90 | replaying deferred events stops with no requests, no events, or a head request that answers "not yet"; requests leave only from the head of the list, each one that leaves is the matching new entry at the head of the giveback list (the most recent first), the others stay in order; events are only consumed from the front, and ring accounting holds |
| VhciTransfer.DeliveredIdempotent | vhci/transfer.c:76-90 | delivering pending events twice is the same as once |
| VhciTransfer.AfterEvent | vhci/transfer.c:92-117 | the backlog is replayed first; a transfer request then goes to the back of the deferred list whenever the list is not empty or no request is linked; any other message with no request linked is dropped; otherwise the message is applied to the head request (ApplyHead) unless the update answers -EAGAIN, in which case it goes to the back of the deferred list and nothing else changes |
| VhciTransfer.EventWithoutRequestDropped | vhci/transfer.c:105-108 | a non-transfer-request event with no linked request changes nothing |
| VhciTransfer.TransferRequestQueuesBehindBacklog | vhci/transfer.c:100-104 | a transfer request never overtakes deferred events: it is appended behind them |
| VhciTransfer.Notify | vhci/transfer.c:138 | a completion returns exactly one slot to its ring |
| VhciTransfer.CompletionStep | vhci/transfer.c:125-139 | aborted completions, and completions with no linked request, change nothing |
| VhciTransfer.AbortedCompletionsIgnored | vhci/transfer.c:127-130 | a batch of aborted completions (after a flush) leaves the queue unchanged |
| VhciTransfer.AfterCompletions | vhci/transfer.c:125-140 | the completions followed by the replay take requests only from the head, each one removed becoming the matching new giveback entry, and consume deferred events only from the front |
| VhciTransfer.BulkOutCompletionGivesBackOnce | vhci/transfer.c:380-394 | a bulk OUT completion reaching the length removes the head request and hands it back once, with status 0 and the received length |
| VhciTransfer.Resumed | vhci/transfer.c:192-195 | the resume walk puts requests only at the head of the giveback list, only with status -ENOMEM, leaves the deferred events alone, keeps ring accounting and keeps linked only requests that were linked |
| VhciTransfer.ResumedSplits | vhci/transfer.c:192-195 | the resume walk splits the linked requests, in list order, into those kept linked (in the same order) and those put at the head of the giveback list (the last one first) |
| VhciTransfer.ResumedAccounts | vhci/transfer.c:192-195 | after the resume walk every request linked before is still linked or among the new giveback entries, and nothing else is |
| VhciTransfer.AfterResume | vhci/transfer.c:192-196 | resuming never links a new request: the linked requests afterwards are among those linked before, and there are no more of them |
| VhciTransfer.ResumeConserves | vhci/transfer.c:178-199 | resuming loses no request and invents none: every request linked before is still linked or among the entries added at the head of the giveback list, and nothing else is; only deferred events are consumed and ring accounting holds |
| VhciTransfer.ResumeStartsParkedInbound | vhci/transfer.c:190-196 | resuming an endpoint whose only request is a parked IN bulk URB starts its transfer, using one message slot and one inbound slot |
| VhciTransfer.Replay | vhci/transfer.c:81-89 | the delivery loop computes `Delivered` |
| VhciTransfer.CompleteAll | vhci/transfer.c:125-139 | the completion loop computes `Completions` |
| VhciTransfer.WalkLinked | vhci/transfer.c:192-195 | the in-place walk over the linked list computes `Resumed` |
| VhciTransfer.TransferQueue.constructor | vhci/transfer.c:15-40 | a new queue is active and every list is empty |
| VhciTransfer.TransferQueue.Giveback | vhci/transfer.c:60-74 | every completed request is handed back, head first, and the giveback list is emptied |
| VhciTransfer.TransferQueue.DeliverPending | vhci/transfer.c:76-90 | the queue's lists become `Delivered` of the old ones, and nothing else changes |
| VhciTransfer.TransferQueue.Event | vhci/transfer.c:92-117 | the queue becomes `AfterEvent` of its old state, and what that gives back is handed back |
| VhciTransfer.TransferQueue.TransferCompletion | vhci/transfer.c:119-143 | the queue applies the completions in order, then replays deferred events, then hands back |
| VhciTransfer.TransferQueue.Pause | vhci/transfer.c:145-174 | the queue goes inactive and drops deferred events; an endpoint state other than paused gives -EINVAL; on success the existing rings are flushed, inbound first |
| VhciTransfer.TransferQueue.Resume | vhci/transfer.c:178-199 | a failed set-state answer changes nothing and is returned; a non-active answer records the reported state and returns -EINVAL, keeping the requests, the deferred list and the active flag; otherwise the queue records the state, goes active and becomes `AfterResume` of its old state |
| VhciTransfer.TransferQueue.UrbCreate | vhci/transfer.c:205-242 | a link failure changes nothing; an inactive queue parks the new URB; an active one initialises it, and a failure unlinks it with that error; otherwise pending events are replayed |
| VhciTransfer.TransferQueue.UrbCancel | vhci/transfer.c:267-285 | a refused unlink changes nothing; otherwise the request (named by its position in the list) leaves the list with the others kept in order, pending events are replayed, and it is handed back directly with the given status |
| VhciQueue.MessageQueue.constructor | vhci/queue.c:8-35 | a new message queue has all slots free and nothing sent |
| VhciQueue.MessageQueue.Reserve | vhci/queue.c:188-189 | a reservation takes one free slot, or fails with the given status when none is free |
| VhciQueue.MessageQueue.Write | vhci/queue.c:47-58 | the request is copied into the tail slot, the tail advances with wrap-around, and one reservation becomes one outstanding submission |
| VhciQueue.MessageQueue.Completion | vhci/queue.c:60-64 | n completions return n slots |
| VhciQueue.EventQueue.constructor | vhci/queue.c:70-88 | creation posts min(pending, capacity) receive slots from slot 0 |
| VhciQueue.EventQueue.SubmitPending | vhci/queue.c:123-138 | min(count, free) consecutive slots from the tail are posted, wrapping around |
| VhciQueue.EventQueue.Completion | vhci/queue.c:106-121 | the k oldest posted slots are handled in order, from the head with wrap-around, and k fresh slots are posted, so the number posted is unchanged |
| VhciQueue.ReplyStatus | vhci/queue.c:210-216 | -EIO exactly when the reply's opcode (tag bits ignored) differs from the request's (cancel bit ignored); 0 exactly on SUCCESS or status 0; otherwise the reply's status |
| VhciQueue.CancelStatus | vhci/queue.c:229-233 | a cancellation reports -ETIMEDOUT when it timed out or when the device answered with a cancellation; otherwise its own status |
| VhciQueue.Exec | vhci/queue.c:181-234 | a cycle sends at most one request plus one cancellation, never more than the free slots, and the first message sent is the request |
| VhciQueue.CancelCycle | vhci/queue.c:198-205 | a timed-out request is followed by exactly the cycle of its cancellation, with a 1000 timeout and one fewer free slot; the result is that cycle's status passed through `CancelStatus`, and the request is sent first |
| VhciQueue.DirectCycle | vhci/queue.c:186-216 | a cycle that sends no cancellation reports success only for a reply whose opcode matches the request; otherwise the reservation failure, -EIO, -ETIMEDOUT or the reply's own non-success status |
| VhciQueue.ReservationFailureUntouched | vhci/queue.c:188-189 | with no free slot nothing is sent and the reservation's status is returned |
| VhciQueue.TimeoutSendsOneCancel | vhci/queue.c:198-207 | a timed-out request sends exactly one cancellation with the cancel bit set and waits 1000 for it; if that times out too, the result is -ETIMEDOUT |
| VhciQueue.CancellationTimeoutIsFinal | vhci/queue.c:201-206 | a cancellation that times out is not cancelled again: -ETIMEDOUT with one message sent |
| VhciQueue.SuccessMatchesRequest | vhci/queue.c:210-216 | a cycle that returns 0 always holds a reply whose opcode matches the request |
| VhciQueue.StatusSelection | vhci/queue.c:181-234 | a cycle returns 0, the reservation failure, -EIO, -ETIMEDOUT, or the reply's own non-success status |
| VhciQueue.CommandQueue.constructor | vhci/queue.c:141-148 | a new command queue has no pending slot |
| VhciQueue.CommandQueue.DeliverCompletion | vhci/queue.c:165-176 | a reply fills the pending slot and signals the waiter; with no pending slot it is dropped |
| VhciQueue.CommandQueue.Destroy | vhci/queue.c:150-163 | a pending waiter is released with an ABORT response |
| VhciQueue.CommandQueue.WaitFor | vhci/queue.c:198 | a wait either receives the reply or times out and leaves the slot pending |
| VhciQueue.CommandQueue.SendAndWait | vhci/queue.c:191-216 | the queue's new state and status are those `Exec` computes |
| VhciQueue.CommandQueue.ExecuteUnlocked | vhci/queue.c:181-217 | the status, the response, the messages sent, the waits and the slot counts are those `Exec` computes |
| VhciQueue.CommandQueue.Cancel | vhci/queue.c:219-234 | the cancellation request is run as a cycle of its own and its status is passed through `CancelStatus` |
| VhciQueue.CommandQueue.Execute | vhci/queue.c:236-244 | the status, the response, the messages sent, the waits and the slot counts are those `Exec` computes |
| AudioProtocol.DecodeLE | audio/protocol.c:18 | reading back n little-endian bytes written from a value below 256^n gives the value |
| AudioProtocol.LEDecode | audio/protocol.c:57 | encoding the value read from n bytes gives the same bytes back |
| AudioProtocol.ReadBase | audio/protocol.c:5-11 | -EINVAL exactly when the size is below header + two bases; otherwise kind and status are the two words after the header |
| AudioProtocol.ReadStartIoResponse | audio/protocol.c:21-25 | 0 exactly for the START_IO_RESPONSE kind, else -EINVAL |
| AudioProtocol.ReadUpdateTimestamp | audio/protocol.c:27-35 | accepts exactly the UPDATE_TIMESTAMP kind and returns the header's device id and the two 64-bit words after the base |
| AudioProtocol.ReadSetPropertyResponse | audio/protocol.c:37-42 | accepts exactly the UPDATE_TIMESTAMP_RESPONSE kind, as the code checks, and returns the object id after the base |
| AudioProtocol.ReadSetRemoteAccessResponse | audio/protocol.c:44-48 | 0 exactly for the SET_REMOTE_ACCESS_RESPONSE kind, else -EINVAL |
| AudioProtocol.SetPropertyLayout | audio/protocol.c:69-83 | the set-property body is 40 bytes plus value and qualifier; every field, both lengths and both blobs are read back where the writer put them |
| AudioProtocol.AudioMsg.Put | audio/protocol.c:57-58 | the bytes are copied at the offset, nothing else changes, and the offset advances by their length |
| AudioProtocol.AudioMsg.WriteStart | audio/protocol.c:50-53 | the header's type and device id are set, and writing continues after the header |
| AudioProtocol.AudioMsg.WriteStartIo | audio/protocol.c:62-67 | the buffer becomes the command header for the device plus the START_IO base, and the size covers exactly that |
| AudioProtocol.AudioMsg.WriteSetProperty | audio/protocol.c:69-83 | the buffer holds the set-property body after the command header, and the size covers exactly that |
| AudioProtocol.AudioMsg.WriteSetRemoteAccess | audio/protocol.c:85-91 | the buffer holds the remote-access body, addressed to device 0 |
| AudioProtocol.AudioMsg.WriteAliveNotification | audio/protocol.c:93-100 | the buffer holds the alive-notification body with a notification header for device 0 |
| AudioProtocol.AudioMsg.WriteUpdateTimestampResponse | audio/protocol.c:102-107 | the buffer holds a response header and the UPDATE_TIMESTAMP_RESPONSE base |
| AudioProtocol.WrittenHeaderAndBase | audio/protocol.c:50-59 | a written message reads back its type, device id, kind and a zero status |
| AudioProtocol.RemoteAccessLayout | audio/protocol.c:85-91 | the remote-access command reads back device 0, its kind, and the mode |
| AudioProtocol.AliveNotificationLayout | audio/protocol.c:93-100 | the alive notification reads back its type, device 0, its kind and both version words |
| AudioProtocol.ReadBaseRejectsBaseOnly | audio/protocol.c:7-8 | a message of header plus one base is refused by `aaudio_msg_read_base` |
| AudioProtocol.ReadBaseOfWritten | audio/protocol.c:5-11 | a written message with at least a base of payload after its base reads back its kind and a zero status |
| AudioProtocol.UpdateTimestampRoundTrip | audio/protocol.c:27-35 | a timestamp message laid out by device id, status, timestamp and seed is read back field for field |
| AudioProtocol.SetPropertyResponseRejected | audio/protocol.c:37-42 | a reply of kind SET_PROPERTY_RESPONSE is refused with -EINVAL |
| AudioProtocol.SetPropertyResponseAccepted | audio/protocol.c:37-42 | a reply of kind UPDATE_TIMESTAMP_RESPONSE is accepted and yields its object id |
| Pcm.GetAlsaFmtbit | audio/pcm.c:5-69 | the result is 0 exactly when the decision table finds no format |
| Pcm.FmtbitSupported | audio/pcm.c:5-69 | the format bit is non-zero exactly for float 32/64, or integer 8/16/24/32 where high-aligned samples must be 24-bit |
| Pcm.AlsaFormat | audio/pcm.c:5-69 | the decision table in the code's branch order; a chosen format agrees with the description in float-ness and sign; in endianness except at 8 bits; in three-byte storage exactly for packed 24-bit; and in width, except that high-aligned 24 becomes a 32-bit format |
| Pcm.FormatReachable | audio/pcm.c:5-69 | every format of the table is produced for its canonical description |
| Pcm.FmtBitIdentifies | audio/pcm.c:10-64 | distinct formats have distinct format bits |
| Pcm.FloatFormats | audio/pcm.c:7-22 | float gives FLOAT or FLOAT64 by endianness for 32 or 64 bits, else 0 |
| Pcm.PackedFormats | audio/pcm.c:36-47 | packed 24 gives the three-byte formats; packed 8/16/32 fall through to the later checks; other widths give 0 |
| Pcm.AlignedHighFormats | audio/pcm.c:48-55 | high-aligned accepts only 24, as a 32-bit format; packed 8/16/32 that fell through give 0 |
| Pcm.PlainFormats | audio/pcm.c:56-68 | 8 gives S8/U8 whatever the endianness; 16/24/32 pick by endianness and sign; other widths give 0 |
| Pcm.HwInfo.Create | audio/pcm.c:70-99 | -EINVAL exactly when the format is 0, with only info and formats written; INTERLEAVED is set exactly when NON_INTERLEAVED is clear; on success min equals max for rate, channels, period bytes and periods, and periods is buf_size / bytes_per_packet truncated to u32 |
| Pcm.HwInfo.Configure | audio/pcm.c:85-95 | every minimum equals its maximum, and the buffer holds exactly `periods` whole packets when the quotient fits in u32 |
| Pcm.Trigger | audio/pcm.c:172-188 | -EINVAL exactly for substream 0 with a command other than START or STOP; 0 otherwise |
| Pcm.RawPosition | audio/pcm.c:199-201 | the elapsed time within the current pass over the buffer maps to a frame below the buffer size |
| Pcm.PointerAsWritten | audio/pcm.c:190-206 | as written: the latency-adjusted position when it is not negative; otherwise that position reduced modulo the buffer's length in nanoseconds, not its size in frames |
| Pcm.PointerAsWrittenRange | audio/pcm.c:198-205 | the pointer as written is never negative; when latency makes it negative before correction, the result is below the buffer length in nanoseconds |
| Pcm.PointerAsWrittenOverflows | audio/pcm.c:203-204 | with a 48-frame buffer at 48000 Hz and one frame of latency, the pointer as written is 999999, past the buffer's 48 frames; the corrected pointer is 47 |
| Pcm.Pointer | audio/pcm.c:190-206 | corrected: the pointer is a frame of the buffer, 0 <= r < buffer size |
| Pcm.PointerIsPosition | audio/pcm.c:198-205 | the corrected pointer is the latency-adjusted position reduced modulo the buffer size |

## Left out

- The ring primitives: reserving, posting, flushing and completing submissions. They are modelled as free-slot counters and a log of posted descriptors. The wait inside a reservation, and the timeout it consumes, are not modelled.
- `VhciQueue.MessageQueue.Reserve`: the failure status is a parameter. The reservation's wait and its timeout (vhci/queue.c:188) are not modelled.
- Device completions while a command cycle runs. Each wait takes its outcome (reply or timeout) as a parameter.
- `VhciQueue.CommandQueue.SendAndWait`: the order "install the pending slot, then write the request" (vhci/queue.c:191-196) is kept in the body but is not stated in the contract.
- Opcode flag bits are tested arithmetically: bit 14 is `(cmd / 0x4000) % 2`. The masks are not written as bit operations.
- The URB is a value inside its queue's list, not a separate object. The `urb->hcpriv` back-pointer, aliasing and deallocation are not modelled.
- Locks, interrupts and the spinlock/mutex pairing are left out. Each method is one critical section.
- The creation and destruction of the message and event queues' DMA memory (vhci/queue.c:37-45, 97-104), and `bce_vhci_destroy_transfer_queue` (vhci/transfer.c:42-49), only free memory and are left out.
- The audio header layout, the message kinds and the VHCI status codes come from headers that are not part of this model. The model uses a 16-byte header with the type at byte 4 and the 64-bit device id at byte 5; SUCCESS is 1 and ABORT is 4. Only SUCCESS being non-zero matters to the proofs.
- The `CMD_*` send-and-wait wrappers of the audio protocol (audio/protocol.c:109-140) are transport I/O and are left out.
- The audio format flags are modelled as one boolean per flag, because their bit values are in a header that is not part of this model.
- `aaudio_double_to_u64` and `snd_pcm_rate_to_rate_bit` (audio/pcm.c:85-86) are left out. The converted rate and its rate bit are inputs of `Pcm.HwInfo.Create`.
- The PCM open, close, prepare, hw_params and hw_free callbacks, `aaudio_create_pcm` and `aaudio_handle_timestamp` are ALSA glue and locking, and are left out.
- `Pcm.PointerAsWritten` and `Pcm.Pointer` take the elapsed time as a non-negative number of nanoseconds. A timestamp in the future (negative elapsed time) and the 64-bit overflow of the intermediate products are not modelled.
- `Pcm.Pointer`: stream latency and device latency are unbounded naturals; their u32 sum is not wrapped.
- `Pcm.HwInfo.Create`: the NON_MIXABLE warning is a log line and is not modelled.
- `Pcm.HwInfo.Create`: requires a supported format to come with a non-zero `bytes_per_packet`. The code divides by that device-supplied value without a guard (audio/pcm.c:94-95), so a zero there is a division trap in the source, which the model does not represent.
- `VhciUrb.UrbResume`: re-issues the inbound transfer of a request waiting for a completion whatever the endpoint's direction, reserving and posting on an inbound ring. An endpoint created outbound-only has no inbound ring (vhci/transfer.c:29-33), and there the source would use a null ring (vhci/transfer.c:298, reached from vhci/transfer.c:493-494). The model does not represent that case; `TransferQueue.hasIn` is not consulted by the resume walk.
- `VhciTransfer.AfterResume`: its own contract does not say that deferred messages are consumed only from the front; that fact is stated by `VhciTransfer.ResumeConserves`, because carrying it on the function made the proofs that use the function too expensive for the solver.
- `VhciTransfer.Resumed`: its own contract states only where handed-back requests go and with which status. Which requests are kept, in what order, and that every handed-back entry is a visited request, are stated by `VhciTransfer.ResumedSplits` and `VhciTransfer.ResumedAccounts`.

## Findings

| source | as written | input that shows it | evidently intended | confidence | as-written member | corrected member |
|---|---|---|---|---|---|---|
| vhci/transfer.c:301-305 | when the message reservation succeeds and the inbound one fails, the code cancels a reservation on the inbound ring, which holds none, and keeps the message queue's | one free message slot and a full inbound ring: a message slot is leaked and the inbound ring gains a slot it never gave out | release the reservation that was taken, on the message queue's ring | high, not executed | VhciUrb.ReservationLeakAsWritten | VhciUrb.DataTransferIn |
| audio/pcm.c:203-204 | a negative position (in frames) is raised by a multiple of the buffer's length in nanoseconds | a 48-frame buffer at 48000 Hz with one frame of latency at a timestamp gives 999999, past the 48-frame buffer | raise by a multiple of the buffer size in frames, so the pointer stays in [0, buffer size) | high, not executed | Pcm.PointerAsWrittenOverflows | Pcm.Pointer |
