/** The per-request state machine of a vhci transfer queue (vhci/transfer.c).

    A URB wrapper is a record; every step of the machine is a function from the
    URB and the device-side resources it touches (`Io`) to a `Step`: the new URB,
    the new resources, the C return value and, when the step completes the URB,
    the status it is given back with. The transfer queue applies steps to the
    head of its request list. */
module VhciUrb {
  import opened Kernel
  import opened VhciMessage

  /** `enum bce_vhci_urb_state`. */
  datatype State =
    | InitPaused
    | WaitingForTransferRequest
    | WaitingForCompletion
    | DataTransferComplete
    | ControlWaitingForSetupRequest
    | ControlWaitingForSetupCompletion
    | ControlComplete

  /** `struct bce_vhci_urb` together with the fields of the client's `struct urb`
      the engine reads (length) or writes (actual length). */
  datatype Urb = Urb(
    id: nat,
    dirIn: bool,
    isControl: bool,
    length: U32,
    state: State,
    receivedStatus: int,
    sendOffset: U32,
    receiveOffset: U32,
    actualLength: U32)

  /** Address of the queue's endpoint: `q->dev_addr` and `bEndpointAddress & 0x8F`. */
  datatype Endpoint = Endpoint(devAddr: U8, endpAddr: U8)

  /** What the engine hands to the device. */
  datatype Post =
    | AsyncMessage(msg: Message)                // on the shared asynchronous message queue
    | InData(urb: nat, offset: nat, size: nat)  // a DMA-from-device buffer on the inbound ring
    | OutData(urb: nat, offset: nat, size: nat) // a DMA-to-device buffer on the outbound ring
    | OutSetup(urb: nat)                        // the 8-byte setup packet on the outbound ring

  datatype Ring = AsyncRing | InRing | OutRing

  /** Free slots of the three submission rings a transfer queue uses, and
      everything posted to the device so far, in order. */
  datatype Io = Io(asyncFree: nat, inFree: nat, outFree: nat, posted: seq<Post>)

  datatype Step = Step(urb: Urb, io: Io, ret: int, done: Option<int>)

  function RingOf(p: Post): Ring
  {
    match p
    case AsyncMessage(_) => AsyncRing
    case InData(_, _, _) => InRing
    case _ => OutRing
  }

  /** How many of the descriptors `ps` went to ring `r`. */
  function Count(ps: seq<Post>, r: Ring): nat
  {
    if ps == [] then 0
    else Count(ps[..|ps| - 1], r) + (if RingOf(ps[|ps| - 1]) == r then 1 else 0)
  }

  function Free(io: Io, r: Ring): nat
  {
    match r
    case AsyncRing => io.asyncFree
    case InRing => io.inFree
    case OutRing => io.outFree
  }

  /** A ring's free slots plus the descriptors ever posted on it: the ring's
      capacity, as far as the URB engine can tell. */
  function Total(io: Io, r: Ring): nat
  {
    Free(io, r) + Count(io.posted, r)
  }

  /** `io'` extends the posted log of `io`, and every ring lost exactly one free
      slot per descriptor posted on it: no reservation is leaked or invented. */
  ghost predicate Accounted(io: Io, io': Io)
  {
    && |io.posted| <= |io'.posted|
    && io'.posted[..|io.posted|] == io.posted
    && Total(io', AsyncRing) == Total(io, AsyncRing)
    && Total(io', InRing) == Total(io, InRing)
    && Total(io', OutRing) == Total(io, OutRing)
  }

  /** A posted descriptor belongs to `u` and stays inside its transfer buffer. */
  predicate Within(p: Post, u: Urb)
  {
    match p
    case AsyncMessage(m) => m.cmd == TRANSFER_REQUEST
    case InData(id, off, size) => id == u.id && off + size <= u.length
    case OutData(id, off, size) => id == u.id && off + size <= u.length
    case OutSetup(id) => id == u.id
  }

  /** Offsets never pass the end of the buffer; while a data phase may still run
      the received count does not either. */
  ghost predicate UrbInv(u: Urb)
  {
    && u.sendOffset <= u.length
    && (Active(u) ==> u.receiveOffset <= u.length)
  }

  predicate Active(u: Urb)
  {
    u.state != DataTransferComplete && u.state != ControlComplete
  }

  /** What every step keeps: the identity and buffer of the URB, the ring
      accounting, and, for a URB that satisfies the invariant, the invariant and
      the confinement of every posted buffer to the URB's own buffer. */
  ghost predicate Keeps(u: Urb, io: Io, r: Step)
  {
    && r.urb.id == u.id && r.urb.dirIn == u.dirIn && r.urb.isControl == u.isControl
    && r.urb.length == u.length
    && Accounted(io, r.io)
    && (UrbInv(u) ==> UrbInv(r.urb) && forall k | |io.posted| <= k < |r.io.posted| :: Within(r.io.posted[k], u))
  }

  lemma AccountedRefl(io: Io)
    ensures Accounted(io, io)
  {
    assert io.posted[..|io.posted|] == io.posted;
  }

  /** Posting one descriptor after reserving its slot keeps the accounting. */
  lemma AccountedPostOne(io: Io, p: Post, io': Io)
    requires io'.posted == io.posted + [p]
    requires Free(io', RingOf(p)) + 1 == Free(io, RingOf(p))
    requires forall r: Ring | r != RingOf(p) :: Free(io', r) == Free(io, r)
    ensures Accounted(io, io')
  {
    assert io'.posted[..|io'.posted| - 1] == io.posted;
    assert io'.posted[..|io.posted|] == io.posted;
  }

  /** Posting two descriptors after reserving their slots keeps the accounting. */
  lemma AccountedPostTwo(io: Io, p: Post, q: Post, io': Io)
    requires io'.posted == io.posted + [p, q]
    requires RingOf(p) != RingOf(q)
    requires Free(io', RingOf(p)) + 1 == Free(io, RingOf(p))
    requires Free(io', RingOf(q)) + 1 == Free(io, RingOf(q))
    requires forall r: Ring | r != RingOf(p) && r != RingOf(q) :: Free(io', r) == Free(io, r)
    ensures Accounted(io, io')
  {
    var mid := match RingOf(p)
      case AsyncRing => io.(asyncFree := io.asyncFree - 1, posted := io.posted + [p])
      case InRing => io.(inFree := io.inFree - 1, posted := io.posted + [p])
      case OutRing => io.(outFree := io.outFree - 1, posted := io.posted + [p]);
    AccountedPostOne(io, p, mid);
    assert io'.posted == mid.posted + [q];
    AccountedPostOne(mid, q, io');
    AccountedTrans(io, mid, io');
  }

  /** Accounting composes along consecutive steps. */
  lemma AccountedTrans(a: Io, b: Io, c: Io)
    requires Accounted(a, b) && Accounted(b, c)
    ensures Accounted(a, c)
  {
    assert c.posted[..|a.posted|] == c.posted[..|b.posted|][..|a.posted|];
  }

  function Unchanged(u: Urb, io: Io, ret: int): (r: Step)
    ensures Keeps(u, io, r) && r.urb == u && r.io == io && r.done == None
  {
    AccountedRefl(io);
    Step(u, io, ret, None)
  }

  /** The inbound transfer issued once both reservations are held: the
      transfer-request message telling the device how many bytes to send, and
      the DMA buffer that receives them, from the current receive offset to the
      end of the URB's buffer. */
  function IssueIn(ep: Endpoint, u: Urb, io: Io): (r: Step)
    requires io.asyncFree > 0 && io.inFree > 0
    ensures Active(u) ==> Keeps(u, io, r)
    ensures r.ret == 0 && r.done == None
    ensures r.urb == u.(sendOffset := u.receiveOffset, state := WaitingForCompletion)
    ensures UrbInv(u) && Active(u) ==>
      r.io.posted == io.posted + [AsyncMessage(Message(TRANSFER_REQUEST, 0, ep.endpAddr * 0x100 + ep.devAddr, u.length - u.receiveOffset)),
                                  InData(u.id, u.receiveOffset, u.length - u.receiveOffset)]
  {
    var offset := u.receiveOffset;
    var trLen := Sub32(u.length, offset);
    var msg := Message(TRANSFER_REQUEST, 0, ep.endpAddr * 0x100 + ep.devAddr, trLen);
    var ps := [AsyncMessage(msg), InData(u.id, offset, trLen)];
    var io' := io.(asyncFree := io.asyncFree - 1, inFree := io.inFree - 1, posted := io.posted + ps);
    AccountedPostTwo(io, ps[0], ps[1], io');
    Step(u.(sendOffset := offset, state := WaitingForCompletion), io', 0, None)
  }

  /** `bce_vhci_urb_data_transfer_in` exactly as written: when the message
      reservation succeeds and the inbound one fails, the source cancels a
      reservation on the inbound ring (which holds none) and keeps the message
      queue's. */
  function DataTransferInAsWritten(ep: Endpoint, u: Urb, io: Io): (r: Step)
    ensures r.ret == 0 || r.ret == -ENOMEM
    ensures r.ret == -ENOMEM <==> io.asyncFree == 0 || io.inFree == 0
  {
    if io.asyncFree == 0 then Step(u, io, -ENOMEM, None)
    else if io.inFree == 0 then Step(u, io.(asyncFree := io.asyncFree - 1, inFree := io.inFree + 1), -ENOMEM, None)
    else IssueIn(ep, u, io)
  }

  /** The as-written failure path breaks the ring accounting: with one free
      message slot and a full inbound ring, a message slot is lost and the
      inbound ring gains a slot it never gave out. */
  lemma ReservationLeakAsWritten(ep: Endpoint, u: Urb)
    ensures var io := Io(1, 0, 0, []);
            var r := DataTransferInAsWritten(ep, u, io);
            r.ret == -ENOMEM && r.io.asyncFree == 0 && r.io.inFree == 1 && r.io.posted == []
            && !Accounted(io, r.io)
  {
    var io := Io(1, 0, 0, []);
    var r := DataTransferInAsWritten(ep, u, io);
    assert Total(r.io, AsyncRing) != Total(io, AsyncRing);
  }

  /** `bce_vhci_urb_data_transfer_in`, with the failed reservation released on
      the ring it was taken from: it fails with -ENOMEM, changing nothing, unless
      both a message slot and an inbound slot are free; otherwise it restarts
      the transfer from the received offset and waits for its completion. */
  function DataTransferIn(ep: Endpoint, u: Urb, io: Io): (r: Step)
    ensures Active(u) ==> Keeps(u, io, r)
    ensures r.done == None
    ensures r.ret == -ENOMEM <==> io.asyncFree == 0 || io.inFree == 0
    ensures r.ret == -ENOMEM ==> r.urb == u && r.io == io
    ensures r.ret != -ENOMEM ==> r.ret == 0 && r.urb.state == WaitingForCompletion
                                  && r.urb.sendOffset == u.receiveOffset
  {
    if io.asyncFree == 0 || io.inFree == 0 then Unchanged(u, io, -ENOMEM)
    else IssueIn(ep, u, io)
  }

  /** `bce_vhci_urb_data_start`: an outbound URB waits for the device to ask for
      data, or is done at once when it has none; an inbound URB starts its
      transfer. */
  function DataStart(ep: Endpoint, u: Urb, io: Io): (r: Step)
    ensures Active(u) ==> Keeps(u, io, r)
    ensures r.done == None
    ensures !u.dirIn ==> r.ret == 0 && r.io == io && r.urb.sendOffset == u.sendOffset
    ensures !u.dirIn && u.length > 0 ==> r.urb.state == WaitingForTransferRequest
    ensures !u.dirIn && u.length == 0 ==> r.urb.state == DataTransferComplete
    ensures u.dirIn ==> (r.ret == 0 <==> io.asyncFree > 0 && io.inFree > 0)
    ensures u.dirIn && r.ret == 0 ==> r.urb.state == WaitingForCompletion && r.urb.sendOffset == u.receiveOffset
    ensures r.ret != 0 ==> r.ret == -ENOMEM && r.urb == u && r.io == io
  {
    if !u.dirIn then
      var r := Step(u.(state := if u.length > 0 then WaitingForTransferRequest else DataTransferComplete), io, 0, None);
      AccountedRefl(io);
      r
    else DataTransferIn(ep, u, io)
  }

  /** `bce_vhci_urb_init`: a control URB waits for the setup request; any other
      starts its data phase. */
  function UrbInit(ep: Endpoint, u: Urb, io: Io): (r: Step)
    ensures Active(u) ==> Keeps(u, io, r)
    ensures r.done == None
    ensures u.isControl ==> r.ret == 0 && r.urb.state == ControlWaitingForSetupRequest && r.io == io
    ensures r.ret != 0 ==> r.ret == -ENOMEM && r.urb == u && r.io == io
  {
    if u.isControl then
      AccountedRefl(io);
      Step(u.(state := ControlWaitingForSetupRequest), io, 0, None)
    else DataStart(ep, u, io)
  }

  /** `bce_vhci_urb_data_update`: only a transfer request reaching a URB that
      waits for one applies; it sends as many bytes as the device asked for and
      the buffer still holds, from the send offset on. Everything else is
      "not yet" (-EAGAIN) and changes nothing. */
  function DataUpdate(u: Urb, m: Message, io: Io): (r: Step)
    ensures Keeps(u, io, r)
    ensures r.done == None
    ensures r.ret == -EAGAIN <==> !(u.state == WaitingForTransferRequest && m.cmd == TRANSFER_REQUEST)
    ensures r.ret == -EAGAIN ==> r.urb == u && r.io == io
    ensures r.ret == -EPIPE <==> u.state == WaitingForTransferRequest && m.cmd == TRANSFER_REQUEST && io.outFree == 0
    ensures r.ret == -EPIPE ==> r.urb == u && r.io == io
    ensures r.ret == 0 ==> UrbInv(u) ==>
      && r.urb == u.(sendOffset := r.urb.sendOffset, state := WaitingForCompletion)
      && r.urb.sendOffset - u.sendOffset == Min(u.length - u.sendOffset, Trunc32(m.param2))
      && r.io.posted == io.posted + [OutData(u.id, u.sendOffset, r.urb.sendOffset - u.sendOffset)]
    ensures r.ret == 0 || r.ret == -EAGAIN || r.ret == -EPIPE
  {
    if u.state == WaitingForTransferRequest && m.cmd == TRANSFER_REQUEST then
      var trLen := Min(Sub32(u.length, u.sendOffset), Trunc32(m.param2));
      if io.outFree == 0 then Unchanged(u, io, -EPIPE)
      else
        var ps := [OutData(u.id, u.sendOffset, trLen)];
        var io' := io.(outFree := io.outFree - 1, posted := io.posted + ps);
        AccountedPostOne(io, ps[0], io');
        Step(u.(sendOffset := Add32(u.sendOffset, trLen), state := WaitingForCompletion), io', 0, None)
    else Unchanged(u, io, -EAGAIN)
  }

  /** `bce_vhci_urb_data_transfer_completion`: a completion counts only while the
      URB waits for one. The received count grows by the completed size (in
      u32); an inbound URB, or an outbound one whose whole length has been
      moved, records its actual length and finishes its data phase, and a bulk
      URB is then given back with status 0. Nothing else changes. */
  function DataTransferCompletion(u: Urb, dataSize: U64, io: Io): (r: Step)
    ensures Keeps(u, io, r)
    ensures r.ret == 0 && r.io == io
    ensures u.state != WaitingForCompletion ==> r.urb == u && r.done == None
    ensures u.state == WaitingForCompletion ==>
      && r.urb.receiveOffset == Add32(u.receiveOffset, Trunc32(dataSize))
      && r.urb.sendOffset == u.sendOffset
      && (r.urb.state == DataTransferComplete <==> u.dirIn || r.urb.receiveOffset >= u.length)
      && (r.urb.state != DataTransferComplete ==> r.urb.state == WaitingForCompletion && r.urb.actualLength == u.actualLength)
      && (r.urb.state == DataTransferComplete ==> r.urb.actualLength == r.urb.receiveOffset)
      && (r.done.Some? <==> r.urb.state == DataTransferComplete && !u.isControl)
      && (r.done.Some? ==> r.done.value == 0)
  {
    AccountedRefl(io);
    if u.state == WaitingForCompletion then
      var received := Add32(u.receiveOffset, Trunc32(dataSize));
      if u.dirIn || received >= u.length then
        Step(u.(receiveOffset := received, actualLength := received, state := DataTransferComplete), io, 0,
             if !u.isControl then Some(0) else None)
      else
        Step(u.(receiveOffset := received), io, 0, None)
    else Step(u, io, 0, None)
  }

  /** True when a control URB with a recorded status may complete. */
  predicate ControlMayComplete(u: Urb)
  {
    && u.receivedStatus != 0
    && (|| u.state == DataTransferComplete
        || (&& u.receivedStatus != SUCCESS as int
            && u.state != ControlWaitingForSetupRequest
            && u.state != ControlWaitingForSetupCompletion))
  }

  /** True in the data phase of a URB: waiting for a transfer request or for a
      completion. */
  predicate InDataPhase(u: Urb)
  {
    u.state == WaitingForTransferRequest || u.state == WaitingForCompletion
  }

  /** `r` is what the status check makes of the data-phase step `s`: the rings
      as `s` left them, and the URB completes exactly when its recorded status
      allows it, answering -ENOENT and given back with status 0; otherwise the
      URB of `s` stands with result 0. */
  predicate StatusChecked(s: Step, r: Step)
  {
    && r.io == s.io
    && (r.done.Some? <==> ControlMayComplete(s.urb))
    && (r.done.Some? ==> r.done == Some(0) && r.ret == -ENOENT && r.urb == s.urb.(state := ControlComplete))
    && (r.done.None? ==> r.ret == 0 && r.urb == s.urb)
  }

  /** `bce_vhci_urb_control_check_status`: with a status recorded, a control URB
      completes (returning -ENOENT, given back with status 0 whatever the
      recorded status) once its data phase is done, or at once on a failure
      status unless it is still in its setup phase. */
  function ControlCheckStatus(u: Urb, io: Io): (r: Step)
    ensures Keeps(u, io, r) && r.io == io
    ensures r.done.Some? <==>
              (&& u.receivedStatus != 0
               && (|| u.state == DataTransferComplete
                   || (&& u.receivedStatus != SUCCESS as int
                       && u.state != ControlWaitingForSetupRequest
                       && u.state != ControlWaitingForSetupCompletion)))
    ensures r.done.Some? ==> r.done == Some(0) && r.ret == -ENOENT && r.urb == u.(state := ControlComplete)
    ensures r.done.None? ==> r.ret == 0 && r.urb == u
  {
    AccountedRefl(io);
    if ControlMayComplete(u) then Step(u.(state := ControlComplete), io, -ENOENT, Some(0))
    else Step(u, io, 0, None)
  }

  /** `bce_vhci_urb_control_update`: a status message is always recorded and may
      complete the URB; a transfer request in the setup-request state sends the
      setup packet (a failed reservation is reported as 0, not as an error);
      during the data phase the data update applies and then the status check. */
  function ControlUpdate(u: Urb, m: Message, io: Io): (r: Step)
    ensures Keeps(u, io, r)
    ensures r.ret == -EAGAIN ==> r.urb == u && r.io == io && r.done == None
    ensures m.cmd == CONTROL_TRANSFER_STATUS ==>
      r.urb.receivedStatus == m.status && r.ret != -EAGAIN && r.io == io
      && (r.done.Some? <==> ControlMayComplete(u.(receivedStatus := m.status as int)))
    ensures m.cmd != CONTROL_TRANSFER_STATUS && u.receivedStatus == 0 ==> r.done == None
    ensures m.cmd != CONTROL_TRANSFER_STATUS && u.state == ControlWaitingForSetupRequest ==>
      && (r.ret == -EAGAIN <==> m.cmd != TRANSFER_REQUEST)
      && (m.cmd == TRANSFER_REQUEST ==>
            (&& r.ret == 0 && r.done == None
             && (io.outFree > 0 <==> r.urb.state == ControlWaitingForSetupCompletion)
             && (io.outFree > 0 ==> r.io.posted == io.posted + [OutSetup(u.id)])))
    ensures m.cmd != CONTROL_TRANSFER_STATUS && InDataPhase(u) ==>
      var s := DataUpdate(u, m, io);
      && (s.ret != 0 ==> r == s)
      && (s.ret == 0 ==> StatusChecked(s, r))
    ensures (&& m.cmd != CONTROL_TRANSFER_STATUS && u.state != ControlWaitingForSetupRequest
             && !InDataPhase(u)) ==> r.ret == -EAGAIN && r.urb == u && r.io == io
    ensures r.done.Some? ==> r.done == Some(0)
  {
    if m.cmd == CONTROL_TRANSFER_STATUS then
      AccountedRefl(io);
      ControlCheckStatus(u.(receivedStatus := m.status as int), io)
    else if u.state == ControlWaitingForSetupRequest then
      if m.cmd == TRANSFER_REQUEST then
        if io.outFree == 0 then Unchanged(u, io, 0)
        else
          var ps := [OutSetup(u.id)];
          var io' := io.(outFree := io.outFree - 1, posted := io.posted + ps);
          AccountedPostOne(io, ps[0], io');
          Step(u.(state := ControlWaitingForSetupCompletion), io', 0, None)
      else Unchanged(u, io, -EAGAIN)
    else if InDataPhase(u) then
      var s := DataUpdate(u, m, io);
      if s.ret != 0 then s
      else
        var c := ControlCheckStatus(s.urb, s.io);
        AccountedTrans(io, s.io, c.io);
        c
    else Unchanged(u, io, -EAGAIN)
  }

  /** `bce_vhci_urb_control_transfer_completion`: the completion of the setup
      packet starts the data phase, and a failure to start it completes the URB
      with that error; a data-phase completion is counted and followed by the
      status check; any other completion changes nothing. */
  function ControlTransferCompletion(ep: Endpoint, u: Urb, dataSize: U64, io: Io): (r: Step)
    ensures Keeps(u, io, r)
    ensures u.state == ControlWaitingForSetupCompletion ==>
      var s := DataStart(ep, u, io);
      && r.urb == s.urb && r.io == s.io
      && (r.done.Some? <==> s.ret != 0)
      && (r.done.Some? ==> r.done == Some(s.ret) && r.ret == -ENOENT)
    ensures u.state != ControlWaitingForSetupCompletion && u.receivedStatus == 0 ==> r.done == None
    ensures InDataPhase(u) ==> StatusChecked(DataTransferCompletion(u, dataSize, io), r)
    ensures u.state != ControlWaitingForSetupCompletion && !InDataPhase(u) ==>
      r.urb == u && r.io == io && r.done == None
  {
    if u.state == ControlWaitingForSetupCompletion then
      var s := DataStart(ep, u, io);
      if s.ret != 0 then Step(s.urb, s.io, -ENOENT, Some(s.ret))
      else s
    else if InDataPhase(u) then
      var s := DataTransferCompletion(u, dataSize, io);
      var c := ControlCheckStatus(s.urb, s.io);
      AccountedTrans(io, s.io, c.io);
      c
    else Unchanged(u, io, 0)
  }

  /** `bce_vhci_urb_update`: a message applied to a URB. "Not yet" (-EAGAIN)
      always leaves URB and rings as they were, so a deferred message can be
      replayed later against the same state. */
  function UrbUpdate(u: Urb, m: Message, io: Io): (r: Step)
    ensures Keeps(u, io, r)
    ensures r.ret == -EAGAIN ==> r.urb == u && r.io == io && r.done == None
    ensures r.done.Some? ==> u.isControl && r.done == Some(0)
  {
    if u.isControl then ControlUpdate(u, m, io) else DataUpdate(u, m, io)
  }

  /** `bce_vhci_urb_transfer_completion`: a DMA completion applied to a URB. */
  function UrbTransferCompletion(ep: Endpoint, u: Urb, dataSize: U64, io: Io): (r: Step)
    ensures Keeps(u, io, r)
    ensures !u.isControl ==> r.io == io
    ensures !Active(u) ==> r.urb == u && r.io == io && r.done == None
  {
    if u.isControl then ControlTransferCompletion(ep, u, dataSize, io)
    else DataTransferCompletion(u, dataSize, io)
  }

  /** `bce_vhci_urb_resume`: a URB parked before initialisation is initialised
      (a failure is ignored and leaves it parked); a URB waiting for a completion
      re-issues an inbound transfer whatever its direction, and a failure there
      completes it with that error; any other URB is left alone. */
  function UrbResume(ep: Endpoint, u: Urb, io: Io): (r: Step)
    ensures Keeps(u, io, r)
    ensures u.state == InitPaused ==> r.done == None && (r.urb == u || r.urb.state != InitPaused)
    ensures u.state == WaitingForCompletion ==>
      (r.done.Some? <==> io.asyncFree == 0 || io.inFree == 0)
      && (r.done.Some? ==> r.done == Some(-ENOMEM) && r.urb == u && r.io == io)
      && (r.done.None? ==> r.urb.state == WaitingForCompletion && r.urb.sendOffset == u.receiveOffset)
    ensures u.state != InitPaused && u.state != WaitingForCompletion ==> r.urb == u && r.io == io && r.done == None
  {
    if u.state == InitPaused then
      var s := UrbInit(ep, u, io);
      Step(s.urb, s.io, 0, None)
    else if u.state == WaitingForCompletion then
      var s := DataTransferIn(ep, u, io);
      if s.ret != 0 then Step(s.urb, s.io, s.ret, Some(s.ret)) else s
    else Unchanged(u, io, 0)
  }

  /** A fresh wrapper for a client request (`kzalloc` leaves every field zero,
      which is the INIT_PAUSED state): control exactly when the endpoint number
      is zero, inbound exactly when the request is. */
  function NewUrb(id: nat, dirIn: bool, endpointNumber: nat, length: U32): (u: Urb)
    ensures u.isControl <==> endpointNumber == 0
    ensures u.dirIn == dirIn && u.state == InitPaused && UrbInv(u) && Active(u)
    ensures u.receivedStatus == 0 && u.sendOffset == 0 && u.receiveOffset == 0
  {
    Urb(id, dirIn, endpointNumber == 0, length, InitPaused, 0, 0, 0, 0)
  }

  /** A bulk outbound URB of length zero finishes its data phase at once but is
      never given back: no message applies to it and no completion changes it,
      so it stays at the head of its endpoint until cancelled. */
  lemma ZeroLengthBulkOutIsNeverGivenBack(ep: Endpoint, id: nat, m: Message, dataSize: U64, io: Io)
    ensures var u := DataStart(ep, NewUrb(id, false, 1, 0), io).urb;
            && u.state == DataTransferComplete
            && UrbUpdate(u, m, io).ret == -EAGAIN
            && UrbTransferCompletion(ep, u, dataSize, io).urb == u
            && UrbTransferCompletion(ep, u, dataSize, io).done == None
  {
  }

  /** A bulk outbound URB whose completion moved less than its length keeps
      waiting for a completion: the next transfer request does not apply to it
      and is deferred. */
  lemma PartialOutCompletionDefersNextRequest(u: Urb, dataSize: U64, m: Message, io: Io)
    requires !u.isControl && !u.dirIn && u.state == WaitingForCompletion
    requires u.receiveOffset + dataSize < u.length
    requires m.cmd == TRANSFER_REQUEST
    ensures var c := UrbTransferCompletion(Endpoint(0, 0), u, dataSize, io);
            && c.done == None && c.urb.state == WaitingForCompletion
            && c.urb.receiveOffset == u.receiveOffset + dataSize
            && UrbUpdate(c.urb, m, c.io).ret == -EAGAIN
  {
  }

  /** An inbound bulk URB is given back on its first completion, with the
      completed size as its actual length, even when that is shorter than the
      buffer (4096 bytes delivered as two completions of 2048 complete after the
      first, with actual length 2048). */
  lemma InboundCompletesOnFirstCompletion(ep: Endpoint, id: nat, io: Io)
    requires io.asyncFree > 0 && io.inFree > 0
    ensures var s := UrbInit(ep, NewUrb(id, true, 1, 4096), io);
            var c := UrbTransferCompletion(ep, s.urb, 2048, s.io);
            && s.urb.state == WaitingForCompletion
            && c.done == Some(0) && c.urb.actualLength == 2048 && c.urb.state == DataTransferComplete
  {
  }
}
