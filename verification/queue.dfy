/** The message, event and command queues of the vhci layer (vhci/queue.c).

    A submission ring is modelled as a counter of free slots together with the
    circular message buffer that backs it: reserving a slot fails when none is
    free, and submitting a descriptor hands the device the slot at the ring's
    tail. Waiting for the device is an oracle argument: the reply that arrived
    in time, or a timeout. Each lock-protected region is one method. */
module VhciQueue {
  import opened Kernel
  import opened VhciMessage

  /** The zeroed message `kzalloc` or `memset` leaves behind. */
  const ZERO_MESSAGE := Message(0, 0, 0, 0)

  /** Timeout, in jiffies, of the cancellation request. */
  const CANCEL_TIMEOUT: nat := 1000

  /** The slot after `i` in a ring of `capacity` slots. */
  function Next(i: nat, capacity: nat): (r: nat)
    requires i < capacity
    ensures r < capacity
  {
    if i + 1 < capacity then i + 1 else 0
  }

  /** The slot `n` places after `i`. */
  function Advance(i: nat, n: nat, capacity: nat): (r: nat)
    requires i < capacity
    ensures r < capacity
    decreases n
  {
    if n == 0 then i else Advance(Next(i, capacity), n - 1, capacity)
  }

  lemma {:induction false} AdvanceSnoc(i: nat, n: nat, capacity: nat)
    requires i < capacity
    ensures Advance(i, n + 1, capacity) == Next(Advance(i, n, capacity), capacity)
    decreases n
  {
    if n > 0 {
      AdvanceSnoc(Next(i, capacity), n - 1, capacity);
    }
  }

  /** The `n` slots from `t` on, in ring order. */
  function SlotRun(t: nat, n: nat, capacity: nat): (r: seq<nat>)
    requires t < capacity
    ensures |r| == n
    ensures forall j | 0 <= j < n :: r[j] < capacity
    decreases n
  {
    if n == 0 then [] else [t] + SlotRun(Next(t, capacity), n - 1, capacity)
  }

  /** A run of slots continues with the slot after its end. */
  lemma {:induction false} SlotRunSnoc(t: nat, n: nat, capacity: nat)
    requires t < capacity
    ensures SlotRun(t, n + 1, capacity) == SlotRun(t, n, capacity) + [Advance(t, n, capacity)]
    decreases n
  {
    if n > 0 {
      SlotRunSnoc(Next(t, capacity), n - 1, capacity);
    }
  }

  /** The messages in the `n` slots from `h` on of the circular buffer `d`. */
  function Window(d: seq<Message>, h: nat, n: nat): (r: seq<Message>)
    requires h < |d|
    ensures |r| == n
    decreases n
  {
    if n == 0 then [] else [d[h]] + Window(d, Next(h, |d|), n - 1)
  }

  lemma {:induction false} WindowSnoc(d: seq<Message>, h: nat, n: nat)
    requires h < |d|
    ensures Window(d, h, n + 1) == Window(d, h, n) + [d[Advance(h, n, |d|)]]
    decreases n
  {
    if n > 0 {
      WindowSnoc(d, Next(h, |d|), n - 1);
    }
  }

  /** The `j`-th slot of a run is `j` places after its first. */
  lemma {:induction false} SlotRunAt(t: nat, n: nat, capacity: nat, j: nat)
    requires t < capacity && j < n
    ensures SlotRun(t, n, capacity)[j] == Advance(t, j, capacity)
    decreases n
  {
    if j > 0 {
      SlotRunAt(Next(t, capacity), n - 1, capacity, j - 1);
    }
  }

  /** The `j`-th message of a window is the one in the slot `j` places after
      its first: a window lists the buffer in ring order. */
  lemma {:induction false} WindowAt(d: seq<Message>, h: nat, n: nat, j: nat)
    requires h < |d| && j < n
    ensures Window(d, h, n)[j] == d[Advance(h, j, |d|)]
    decreases n
  {
    if j > 0 {
      WindowAt(d, Next(h, |d|), n - 1, j - 1);
    }
  }

  /** `struct bce_vhci_message_queue`: a submission ring of `capacity` slots
      toward the device, backed by a buffer of messages. */
  class MessageQueue {
    const capacity: nat
    const data: array<Message>
    /** The ring's tail: the slot the next descriptor goes to. */
    var tail: nat
    /** Slots that may still be reserved. */
    var free: nat
    /** Slots reserved and not yet written. */
    var reserved: nat
    /** Slots written and not yet completed by the device. */
    var outstanding: nat
    /** The slot of every descriptor handed to the device, in order. */
    var submitted: seq<nat>
    /** The message in every descriptor handed to the device, in order. */
    var sent: seq<Message>

    ghost predicate Valid()
      reads this
    {
      && data.Length == capacity && capacity > 0 && tail < capacity
      && free + reserved + outstanding == capacity
      && |submitted| == |sent|
    }

    /** The queue as `bce_vhci_message_queue_create` leaves it. */
    constructor (capacity: nat)
      requires capacity > 0
      ensures Valid() && fresh(data)
      ensures this.capacity == capacity && tail == 0 && free == capacity
      ensures reserved == 0 && outstanding == 0 && submitted == [] && sent == []
    {
      this.capacity := capacity;
      data := new Message[capacity](_ => ZERO_MESSAGE);
      tail := 0;
      free := capacity;
      reserved := 0;
      outstanding := 0;
      submitted := [];
      sent := [];
    }

    /** `bce_reserve_submission`: takes a free slot, or fails with `failStatus`
        (the ring primitive's own error, non-zero) when none is free. */
    method Reserve(failStatus: int) returns (status: int)
      requires Valid() && failStatus != 0
      modifies this
      ensures Valid()
      ensures old(free) > 0 ==> status == 0 && free == old(free) - 1 && reserved == old(reserved) + 1
      ensures old(free) == 0 ==> status == failStatus && free == 0 && reserved == old(reserved)
      ensures tail == old(tail) && outstanding == old(outstanding)
      ensures submitted == old(submitted) && sent == old(sent)
    {
      if free == 0 {
        return failStatus;
      }
      free := free - 1;
      reserved := reserved + 1;
      return 0;
    }

    /** `bce_vhci_message_queue_write`: stores `req` in the slot at the tail,
        advances the tail and submits a descriptor for exactly that slot. The
        caller holds a reservation. */
    method Write(req: Message)
      requires Valid() && reserved > 0
      modifies this, data
      ensures Valid()
      ensures data[..] == old(data[..])[old(tail) := req]
      ensures tail == Next(old(tail), capacity)
      ensures submitted == old(submitted) + [old(tail)] && sent == old(sent) + [req]
      ensures reserved == old(reserved) - 1 && outstanding == old(outstanding) + 1 && free == old(free)
    {
      var sidx := tail;
      tail := Next(tail, capacity);
      reserved := reserved - 1;
      data[sidx] := req;
      submitted := submitted + [sidx];
      sent := sent + [req];
      outstanding := outstanding + 1;
    }

    /** `bce_vhci_message_queue_completion` for `n` completions reported by the
        device: every completed slot is free again. */
    method Completion(n: nat)
      requires Valid() && n <= outstanding
      modifies this
      ensures Valid()
      ensures free == old(free) + n && outstanding == old(outstanding) - n
      ensures tail == old(tail) && reserved == old(reserved)
      ensures submitted == old(submitted) && sent == old(sent)
    {
      var i := 0;
      while i < n
        invariant 0 <= i <= n
        invariant Valid()
        invariant free == old(free) + i && outstanding == old(outstanding) - i
        invariant tail == old(tail) && reserved == old(reserved)
        invariant submitted == old(submitted) && sent == old(sent)
      {
        outstanding := outstanding - 1;
        free := free + 1;
        i := i + 1;
      }
    }
  }

  /** `struct bce_vhci_event_queue`: a ring of `capacity` receive buffers the
      device fills with event messages. The buffers posted to the device are
      the slots from `head` on, in ring order. */
  class EventQueue {
    const capacity: nat
    const data: array<Message>
    /** The ring's head: the slot the device completes next. */
    var head: nat
    /** The ring's tail: the slot the next receive buffer goes to. */
    var tail: nat
    /** Slots that may still be reserved. */
    var free: nat
    /** The receive buffers posted to the device and not yet completed. */
    var posted: seq<nat>
    /** The messages handed to the queue's handler, in order. */
    var handled: seq<Message>

    ghost predicate Valid()
      reads this
    {
      && data.Length == capacity && capacity > 0
      && head < capacity && tail < capacity
      && free + |posted| == capacity
      && tail == Advance(head, |posted|, capacity)
      && posted == SlotRun(head, |posted|, capacity)
    }

    /** `__bce_vhci_event_queue_create`: an empty ring, then
        `pendingCount` receive buffers posted (as many as fit). */
    constructor (capacity: nat, pendingCount: nat)
      requires capacity > 0
      ensures Valid() && fresh(data) && this.capacity == capacity
      ensures posted == SlotRun(0, Min(pendingCount, capacity), capacity)
      ensures head == 0 && handled == []
    {
      this.capacity := capacity;
      data := new Message[capacity](_ => ZERO_MESSAGE);
      head := 0;
      tail := 0;
      free := capacity;
      posted := [];
      handled := [];
      new;
      SubmitPending(pendingCount);
    }

    /** `bce_vhci_event_queue_submit_pending`: posts up to `count` receive
        buffers at the tail, stopping at the first failed reservation. */
    method SubmitPending(count: nat)
      requires Valid()
      modifies this
      ensures Valid()
      ensures var n := Min(count, old(free));
        && posted == old(posted) + SlotRun(old(tail), n, capacity)
        && free == old(free) - n
      ensures head == old(head) && handled == old(handled)
    {
      var left: nat := count;
      ghost var n: nat := 0;
      while left > 0
        invariant Valid()
        invariant n + left == count && n <= old(free)
        invariant free == old(free) - n
        invariant posted == old(posted) + SlotRun(old(tail), n, capacity)
        invariant tail == Advance(old(tail), n, capacity)
        invariant head == old(head) && handled == old(handled)
        decreases left
      {
        left := left - 1;
        if free == 0 {
          break;
        }
        var idx := tail;
        SlotRunSnoc(old(tail), n, capacity);
        SlotRunSnoc(head, |posted|, capacity);
        AdvanceSnoc(old(tail), n, capacity);
        AdvanceSnoc(head, |posted|, capacity);
        tail := Next(tail, capacity);
        free := free - 1;
        posted := posted + [idx];
        n := n + 1;
      }
    }

    /** `bce_vhci_event_queue_completion` for `k` completions reported by the
        device: the handler gets the message of every completed slot, in ring
        order, each slot is returned, and then exactly as many receive buffers
        are posted again, so the posted depth is restored. */
    method Completion(k: nat)
      requires Valid() && k <= |posted|
      modifies this
      ensures Valid()
      ensures handled == old(handled) + Window(data[..], old(head), k)
      ensures posted == old(posted)[k..] + SlotRun(old(tail), k, capacity)
      ensures |posted| == |old(posted)|
    {
      var cnt := 0;
      while cnt < k
        invariant 0 <= cnt <= k
        invariant Valid()
        invariant head == Advance(old(head), cnt, capacity) && tail == old(tail)
        invariant posted == old(posted)[cnt..] && free == old(free) + cnt
        invariant handled == old(handled) + Window(data[..], old(head), cnt)
      {
        var msg := data[head];
        WindowSnoc(data[..], old(head), cnt);
        AdvanceSnoc(old(head), cnt, capacity);
        handled := handled + [msg];
        head := Next(head, capacity);
        free := free + 1;
        posted := posted[1..];
        cnt := cnt + 1;
      }
      SubmitPending(cnt);
    }
  }

  /** What `wait_for_completion_timeout` saw: the reply delivered in time by
      `bce_vhci_command_queue_deliver_completion`, or a timeout. */
  datatype Wait = Reply(msg: Message) | TimedOut

  /** Whether a request may still be cancelled: 1 for a request, 0 for a
      cancellation (cancel bit set). */
  function Level(cmd: U16): nat
  {
    if !IsCancel(cmd) then 1 else 0
  }

  /** The status `__bce_vhci_command_queue_execute` returns once the reply
      `res` to `req` arrived: -EIO when the reply's opcode (reply-tag bits
      ignored) is not the request's (cancel bit ignored); otherwise 0 for a
      SUCCESS status and the device's status as it is for any other, a zero
      status included. */
  function ReplyStatus(req: Message, res: Message): (r: int)
    ensures ReplyKey(res.cmd) != RequestKey(req.cmd) <==> r == -EIO
    ensures ReplyKey(res.cmd) == RequestKey(req.cmd) ==>
      (r == 0 <==> res.status == SUCCESS as int || res.status == 0)
    ensures r != 0 && r != -EIO ==> r == res.status && res.status != SUCCESS as int
  {
    if ReplyKey(res.cmd) != RequestKey(req.cmd) then -EIO
    else if res.status == SUCCESS as int then 0
    else res.status
  }

  /** The status `bce_vhci_command_queue_cancel` returns from the status of
      the cancellation's own execution and the response it left. */
  function CancelStatus(status: int, res: Message): (r: int)
    ensures r == -ETIMEDOUT <==> status == -ETIMEDOUT || IsCancel(res.cmd)
    ensures r != -ETIMEDOUT ==> r == status
  {
    if status == -ETIMEDOUT then -ETIMEDOUT
    else if !IsCancel(res.cmd) then status
    else -ETIMEDOUT
  }

  /** The outcome of one command cycle: its status, the caller's response
      storage afterwards, the messages written to the device and the timeouts
      waited for, in order. */
  datatype Run = Run(status: int, response: Message, sent: seq<Message>, waited: seq<nat>)

  /** `__bce_vhci_command_queue_execute` on `req` with the message ring holding
      `free` free slots, the ring failing a reservation with `failStatus`, the
      wait for the reply seeing `reply` and, should a cancellation be sent, the
      wait for its reply seeing `cancelReply`; `res` is the caller's response
      storage. A request whose wait timed out is cancelled by the same request
      with the cancel bit set and a 1000-jiffy timeout; a cancellation is never
      cancelled. */
  function Exec(req: Message, timeout: nat, free: nat, failStatus: int, reply: Wait, cancelReply: Wait,
                res: Message): (r: Run)
    ensures |r.sent| == |r.waited| <= free
    ensures |r.sent| <= Level(req.cmd) + 1
    ensures r.sent != [] ==> r.sent[0] == req && r.waited[0] == timeout
    decreases Level(req.cmd)
  {
    if free == 0 then Run(failStatus, res, [], [])
    else
      match reply
      case Reply(m) => Run(ReplyStatus(req, m), m, [req], [timeout])
      case TimedOut =>
        if IsCancel(req.cmd) then Run(-ETIMEDOUT, res, [req], [timeout])
        else
          var creq := req.(cmd := WithCancel(req.cmd));
          CancelKeepsIdentity(req.cmd);
          var c := Exec(creq, CANCEL_TIMEOUT, free - 1, failStatus, cancelReply, TimedOut, res);
          Run(CancelStatus(c.status, c.response), c.response, [req] + c.sent, [timeout] + c.waited)
  }

  /** A failed reservation is reported as is, and nothing is sent and the
      response is not touched. */
  lemma ReservationFailureUntouched(req: Message, timeout: nat, failStatus: int, reply: Wait, cancelReply: Wait,
                                    res: Message)
    ensures Exec(req, timeout, 0, failStatus, reply, cancelReply, res) == Run(failStatus, res, [], [])
  {
  }

  /** A request whose reply did not come in time is followed by exactly one
      cancellation, the same message with the cancel bit set, waited for
      1000 jiffies; the cancellation is not cancelled in turn. */
  lemma TimeoutSendsOneCancel(req: Message, timeout: nat, free: nat, failStatus: int, cancelReply: Wait,
                              res: Message)
    requires !IsCancel(req.cmd) && free >= 2
    ensures var r := Exec(req, timeout, free, failStatus, TimedOut, cancelReply, res);
      && r.sent == [req, req.(cmd := WithCancel(req.cmd))]
      && r.waited == [timeout, CANCEL_TIMEOUT]
      && (cancelReply == TimedOut ==> r.status == -ETIMEDOUT)
  {
    CancelKeepsIdentity(req.cmd);
  }

  /** A cancellation that times out reports -ETIMEDOUT. */
  lemma CancellationTimeoutIsFinal(req: Message, timeout: nat, free: nat, failStatus: int, cancelReply: Wait,
                                   res: Message)
    requires IsCancel(req.cmd) && free > 0
    ensures var r := Exec(req, timeout, free, failStatus, TimedOut, cancelReply, res);
      r.status == -ETIMEDOUT && r.sent == [req] && r.response == res
  {
  }

  /** A request that timed out is followed by the cycle of its cancellation:
      the same request with the cancel bit set, which answers to the same
      opcode and is not cancelled in turn. */
  lemma CancelCycle(req: Message, timeout: nat, free: nat, failStatus: int, cancelReply: Wait, res: Message)
    requires free > 0 && !IsCancel(req.cmd)
    ensures var c := Exec(req.(cmd := WithCancel(req.cmd)), CANCEL_TIMEOUT, free - 1, failStatus, cancelReply, TimedOut, res);
      Exec(req, timeout, free, failStatus, TimedOut, cancelReply, res)
      == Run(CancelStatus(c.status, c.response), c.response, [req] + c.sent, [timeout] + c.waited)
  {
  }

  /** The status of a cycle that sends no cancellation: success only for a
      reply answering the request, and otherwise the ring's failure, -EIO,
      -ETIMEDOUT or the device's own failure status. */
  lemma DirectCycle(req: Message, timeout: nat, free: nat, failStatus: int, reply: Wait, cancelReply: Wait,
                    res: Message)
    requires !(free > 0 && reply.TimedOut? && !IsCancel(req.cmd))
    ensures var r := Exec(req, timeout, free, failStatus, reply, cancelReply, res);
      && (r.status == 0 && failStatus != 0 ==> ReplyKey(r.response.cmd) == RequestKey(req.cmd))
      && (|| r.status == 0 || r.status == failStatus || r.status == -EIO || r.status == -ETIMEDOUT
          || (r.status == r.response.status && r.status != SUCCESS as int && r.sent != []))
  {
    if free > 0 && reply.Reply? {
      var st := ReplyStatus(req, reply.msg);
      assert Exec(req, timeout, free, failStatus, reply, cancelReply, res) == Run(st, reply.msg, [req], [timeout]);
    }
  }

  /** A command cycle that reports success got a reply whose opcode, reply-tag
      bits ignored, is the request's, whether it answered the request or its
      cancellation. */
  lemma SuccessMatchesRequest(req: Message, timeout: nat, free: nat, failStatus: int, reply: Wait, cancelReply: Wait,
                              res: Message)
    requires failStatus != 0
    requires Exec(req, timeout, free, failStatus, reply, cancelReply, res).status == 0
    ensures ReplyKey(Exec(req, timeout, free, failStatus, reply, cancelReply, res).response.cmd) == RequestKey(req.cmd)
  {
    if free > 0 && reply.TimedOut? && !IsCancel(req.cmd) {
      CancelCycle(req, timeout, free, failStatus, cancelReply, res);
      CancelKeepsIdentity(req.cmd);
      DirectCycle(req.(cmd := WithCancel(req.cmd)), CANCEL_TIMEOUT, free - 1, failStatus, cancelReply, TimedOut, res);
    } else {
      DirectCycle(req, timeout, free, failStatus, reply, cancelReply, res);
    }
  }

  /** The only statuses a command cycle reports: success, the ring's failure,
      a desynchronised reply, a timeout, or a failure status the device put in
      the response. */
  lemma StatusSelection(req: Message, timeout: nat, free: nat, failStatus: int, reply: Wait, cancelReply: Wait,
                        res: Message)
    ensures var r := Exec(req, timeout, free, failStatus, reply, cancelReply, res);
      || r.status == 0 || r.status == failStatus || r.status == -EIO || r.status == -ETIMEDOUT
      || (r.status == r.response.status && r.status != SUCCESS as int && r.sent != [])
  {
    if free > 0 && reply.TimedOut? && !IsCancel(req.cmd) {
      CancelCycle(req, timeout, free, failStatus, cancelReply, res);
      CancelKeepsIdentity(req.cmd);
      DirectCycle(req.(cmd := WithCancel(req.cmd)), CANCEL_TIMEOUT, free - 1, failStatus, cancelReply, TimedOut, res);
    } else {
      DirectCycle(req, timeout, free, failStatus, reply, cancelReply, res);
    }
  }

  /** `struct bce_vhci_command_queue`: the message queue commands go out on and
      the single completion slot. `pending` says the slot points at the
      caller's response storage, modelled by `response`. */
  class CommandQueue {
    const mq: MessageQueue
    var pending: bool
    var response: Message
    /** The completion has been signalled since the last re-initialisation. */
    var signalled: bool
    /** The timeout of every wait for a reply, in order. */
    var waited: seq<nat>

    ghost predicate Valid()
      reads this, mq
    {
      mq.Valid()
    }

    /** `bce_vhci_command_queue_create`; `response` is the caller's storage. */
    constructor (mq: MessageQueue, response: Message)
      requires mq.Valid()
      ensures Valid() && this.mq == mq && !pending && !signalled && waited == []
      ensures this.response == response
    {
      this.mq := mq;
      pending := false;
      this.response := response;
      signalled := false;
      waited := [];
    }

    /** `bce_vhci_command_queue_deliver_completion`: a reply fills the pending
        response and clears the slot; with no response pending it is ignored. */
    method DeliverCompletion(msg: Message)
      modifies this
      ensures !pending && waited == old(waited)
      ensures old(pending) ==> response == msg && signalled
      ensures !old(pending) ==> response == old(response) && signalled == old(signalled)
    {
      if pending {
        response := msg;
        signalled := true;
        pending := false;
      }
    }

    /** `bce_vhci_command_queue_destroy`: a pending response is filled with a
        zeroed message with status ABORT and the slot is cleared, so its
        waiter is released. */
    method Destroy()
      modifies this
      ensures !pending && waited == old(waited)
      ensures old(pending) ==> response == ZERO_MESSAGE.(status := ABORT) && signalled
      ensures !old(pending) ==> response == old(response) && signalled == old(signalled)
    {
      if pending {
        response := ZERO_MESSAGE.(status := ABORT);
        signalled := true;
        pending := false;
      }
    }

    /** `wait_for_completion_timeout`, with `w` what happened while waiting. */
    method WaitFor(w: Wait, timeout: nat) returns (completed: bool)
      requires pending && !signalled
      modifies this
      ensures waited == old(waited) + [timeout]
      ensures w.Reply? ==> completed && !pending && response == w.msg
      ensures w.TimedOut? ==> !completed && pending && response == old(response)
    {
      waited := waited + [timeout];
      if w.Reply? {
        DeliverCompletion(w.msg);
      }
      completed := signalled;
    }

    /** `__bce_vhci_command_queue_execute`: reserve a slot, then send the
        request and wait for its reply. */
    method ExecuteUnlocked(req: Message, timeout: nat, failStatus: int, reply: Wait, cancelReply: Wait)
      returns (status: int)
      requires Valid() && !pending && failStatus != 0
      modifies this, mq, mq.data
      ensures Valid() && !pending
      ensures var r := Exec(req, timeout, old(mq.free), failStatus, reply, cancelReply, old(response));
        && status == r.status && response == r.response
        && mq.sent == old(mq.sent) + r.sent && waited == old(waited) + r.waited
        && mq.free == old(mq.free) - |r.sent| && mq.outstanding == old(mq.outstanding) + |r.sent|
      decreases Level(req.cmd), 2
    {
      status := mq.Reserve(failStatus);
      if status != 0 {
        return;
      }
      status := SendAndWait(req, timeout, failStatus, reply, cancelReply);
    }

    /** The rest of `__bce_vhci_command_queue_execute`, once a slot is
        reserved: install the response slot, write the request and wait; on a
        timeout clear the slot and cancel, on a reply select the status. */
    method SendAndWait(req: Message, timeout: nat, failStatus: int, reply: Wait, cancelReply: Wait)
      returns (status: int)
      requires Valid() && !pending && failStatus != 0 && mq.reserved > 0
      modifies this, mq, mq.data
      ensures Valid() && !pending
      ensures var r := Exec(req, timeout, old(mq.free) + 1, failStatus, reply, cancelReply, old(response));
        && status == r.status && response == r.response
        && mq.sent == old(mq.sent) + r.sent && waited == old(waited) + r.waited
        && mq.free == old(mq.free) + 1 - |r.sent| && mq.outstanding == old(mq.outstanding) + |r.sent|
      decreases Level(req.cmd), 1
    {
      pending := true;
      signalled := false;
      mq.Write(req);
      var done := WaitFor(reply, timeout);
      if !done {
        pending := false;
        if !IsCancel(req.cmd) {
          status := Cancel(req, failStatus, cancelReply);
          return;
        }
        return -ETIMEDOUT;
      }
      status := ReplyStatus(req, response);
    }

    /** `bce_vhci_command_queue_cancel`: sends `req` again with the cancel bit
        set and a 1000-jiffy timeout; -ETIMEDOUT when that times out too or
        its reply carries the cancel bit, the cancellation's status otherwise. */
    method Cancel(req: Message, failStatus: int, reply: Wait) returns (status: int)
      requires Valid() && !pending && failStatus != 0
      requires !IsCancel(req.cmd)
      modifies this, mq, mq.data
      ensures Valid() && !pending
      ensures var creq := req.(cmd := WithCancel(req.cmd));
        var c := Exec(creq, CANCEL_TIMEOUT, old(mq.free), failStatus, reply, TimedOut, old(response));
        && status == CancelStatus(c.status, c.response) && response == c.response
        && mq.sent == old(mq.sent) + c.sent && waited == old(waited) + c.waited
        && mq.free == old(mq.free) - |c.sent| && mq.outstanding == old(mq.outstanding) + |c.sent|
      decreases Level(req.cmd), 0
    {
      var creq := req;
      creq := creq.(cmd := WithCancel(creq.cmd));
      CancelKeepsIdentity(req.cmd);
      status := ExecuteUnlocked(creq, CANCEL_TIMEOUT, failStatus, reply, TimedOut);
      if status == -ETIMEDOUT {
        return -ETIMEDOUT;
      }
      if !IsCancel(response.cmd) {
        return status;
      }
      return -ETIMEDOUT;
    }

    /** `bce_vhci_command_queue_execute`: one command cycle under the queue's
        mutex. */
    method Execute(req: Message, timeout: nat, failStatus: int, reply: Wait, cancelReply: Wait)
      returns (status: int)
      requires Valid() && !pending && failStatus != 0
      modifies this, mq, mq.data
      ensures Valid() && !pending
      ensures var r := Exec(req, timeout, old(mq.free), failStatus, reply, cancelReply, old(response));
        && status == r.status && response == r.response
        && mq.sent == old(mq.sent) + r.sent && waited == old(waited) + r.waited
        && mq.free == old(mq.free) - |r.sent| && mq.outstanding == old(mq.outstanding) + |r.sent|
    {
      status := ExecuteUnlocked(req, timeout, failStatus, reply, cancelReply);
    }
  }
}
