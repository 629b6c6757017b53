/** One endpoint's transfer queue (vhci/transfer.c): the ordered list of linked
    requests, the FIFO of deferred event messages and the giveback list, and the
    operations that match messages and DMA completions to the head request.

    Each operation runs under the queue's spinlock in the source, so each is one
    atomic method here. What an operation does to the lists is a pure function
    of the queue's view (`QView`); the methods of `TransferQueue` are proved to
    compute exactly that function, and the lemmas state what the functions keep. */
module VhciTransfer {
  import opened Kernel
  import opened VhciMessage
  import opened VhciUrb

  /** `enum bce_vhci_endpoint_state`, as reported by the device. */
  datatype EndpointState = EndpointActive | EndpointPaused | EndpointStalled

  /** A request handed back to the USB core, with its status and actual length. */
  datatype Given = Given(id: nat, status: int, actualLength: U32)

  /** A DMA completion read from one of the queue's submission rings. */
  datatype Completion = Completion(aborted: bool, dataSize: U64)

  /** The lists a transfer queue works on and the device-side resources. */
  datatype QView = QView(urbs: seq<Urb>, evq: seq<Message>, giveback: seq<Given>, io: Io)

  /** Every linked request keeps its offsets inside its buffer, and no request
      is linked twice. */
  ghost predicate Inv(v: QView)
  {
    && (forall i | 0 <= i < |v.urbs| :: UrbInv(v.urbs[i]))
    && (forall i, j | 0 <= i < j < |v.urbs| :: v.urbs[i].id != v.urbs[j].id)
  }

  /** `r` is `s` with some elements dropped from the front. */
  ghost predicate SuffixOf<T>(r: seq<T>, s: seq<T>)
  {
    |r| <= |s| && r == s[|s| - |r|..]
  }

  /** `r` is `s` with some elements added at the front. */
  ghost predicate GrownAtHead<T>(s: seq<T>, r: seq<T>)
  {
    |s| <= |r| && r[|r| - |s|..] == s
  }

  /** `r` keeps the requests behind `s`'s head: at most the head itself was
      changed, and requests were removed only from the front. */
  ghost predicate OnlyHeadTouched(s: seq<Urb>, r: seq<Urb>)
  {
    |r| <= |s| && (|r| > 0 ==> r[1..] == s[|s| - |r| + 1..])
  }

  /** What every matching step keeps: requests leave the list only from its
      head, and each one that leaves is put at the head of the giveback list,
      so the newest giveback entry is the last request removed; the requests
      that stay keep their order and identity, and the invariant holds. */
  ghost predicate Conserves(v: QView, r: QView)
  {
    && |r.urbs| + |r.giveback| == |v.urbs| + |v.giveback|
    && GrownAtHead(v.giveback, r.giveback)
    && OnlyHeadTouched(v.urbs, r.urbs)
    && (|r.urbs| > 0 ==> r.urbs[0].id == v.urbs[|v.urbs| - |r.urbs|].id)
    && (|r.urbs| > 0 && UrbInv(v.urbs[|v.urbs| - |r.urbs|]) ==> UrbInv(r.urbs[0]))
    && (forall k | 0 <= k < |r.giveback| - |v.giveback| ::
          r.giveback[k].id == v.urbs[|r.giveback| - |v.giveback| - 1 - k].id)
  }

  /** A request that stays linked across a step is the one at the matching
      place behind the removed ones. */
  lemma ConservesKept(v: QView, r: QView, j: nat)
    requires Conserves(v, r) && j < |r.urbs|
    ensures r.urbs[j].id == v.urbs[|v.urbs| - |r.urbs| + j].id
  {
    if j > 0 {
      assert r.urbs[1..][j - 1] == v.urbs[|v.urbs| - |r.urbs| + 1..][j - 1];
    }
  }

  /** Every step that conserves the lists keeps the invariant. */
  lemma ConservesInv(v: QView, r: QView)
    requires Conserves(v, r) && Inv(v)
    ensures Inv(r)
  {
    var off := |v.urbs| - |r.urbs|;
    assert forall i | 1 <= i < |r.urbs| :: r.urbs[i] == v.urbs[off + i] by {
      forall i | 1 <= i < |r.urbs| ensures r.urbs[i] == v.urbs[off + i] {
        assert r.urbs[1..][i - 1] == v.urbs[off + 1..][i - 1];
      }
    }
    forall i, j | 0 <= i < j < |r.urbs| ensures r.urbs[i].id != r.urbs[j].id {
      assert v.urbs[off + i].id != v.urbs[off + j].id;
    }
  }

  /** A step keeps only requests that were linked. */
  lemma ConservesIds(v: QView, r: QView)
    requires Conserves(v, r)
    ensures Ids(r.urbs) <= Ids(v.urbs)
  {
    forall x | x in r.urbs ensures x.id in Ids(v.urbs) {
      var i :| 0 <= i < |r.urbs| && r.urbs[i] == x;
      if i == 0 {
        assert v.urbs[|v.urbs| - |r.urbs|] in v.urbs;
      } else {
        assert r.urbs[1..][i - 1] == v.urbs[|v.urbs| - |r.urbs| + 1..][i - 1];
        assert v.urbs[|v.urbs| - |r.urbs| + i] in v.urbs;
      }
    }
  }

  lemma ConservesTrans(a: QView, b: QView, c: QView)
    requires Conserves(a, b) && Conserves(b, c)
    ensures Conserves(a, c)
  {
    if |c.urbs| > 0 {
      calc {
        c.urbs[1..];
        b.urbs[|b.urbs| - |c.urbs| + 1..];
        b.urbs[1..][|b.urbs| - |c.urbs|..];
        a.urbs[|a.urbs| - |b.urbs| + 1..][|b.urbs| - |c.urbs|..];
        a.urbs[|a.urbs| - |c.urbs| + 1..];
      }
      var kb := |b.urbs| - |c.urbs|;
      if kb > 0 {
        assert b.urbs[kb] == a.urbs[|a.urbs| - |b.urbs| + kb] by {
          assert b.urbs[1..][kb - 1] == a.urbs[|a.urbs| - |b.urbs| + 1..][kb - 1];
        }
      }
    }
    assert c.giveback[|c.giveback| - |a.giveback|..] == c.giveback[|c.giveback| - |b.giveback|..][|b.giveback| - |a.giveback|..];
    ConservesGivenTrans(a, b, c);
  }

  /** The entries two steps put on the giveback list are the requests the two
      steps removed, most recent first. */
  lemma ConservesGivenTrans(a: QView, b: QView, c: QView)
    requires Conserves(a, b) && Conserves(b, c)
    ensures forall k | 0 <= k < |c.giveback| - |a.giveback| ::
      c.giveback[k].id == a.urbs[|c.giveback| - |a.giveback| - 1 - k].id
  {
    var n1 := |b.giveback| - |a.giveback|;
    var n2 := |c.giveback| - |b.giveback|;
    forall k | 0 <= k < n1 + n2 ensures c.giveback[k].id == a.urbs[n1 + n2 - 1 - k].id {
      if k < n2 {
        ConservesKept(a, b, n2 - 1 - k);
      } else {
        assert c.giveback[k] == c.giveback[n2..][k - n2];
      }
    }
  }

  /** `bce_vhci_urb_complete` or an in-place update: the outcome of a step on
      the head request. A completed request leaves the list and is put at the
      head of the giveback list with the status it completed with. */
  function ApplyHead(v: QView, s: Step): (r: QView)
    requires |v.urbs| > 0
    requires s.urb.id == v.urbs[0].id
    requires UrbInv(v.urbs[0]) ==> UrbInv(s.urb)
    ensures Conserves(v, r) && r.evq == v.evq && r.io == s.io
    ensures s.done.Some? ==> r.urbs == v.urbs[1..] && r.giveback == [Given(s.urb.id, s.done.value, s.urb.actualLength)] + v.giveback
    ensures s.done.None? ==> r.urbs == [s.urb] + v.urbs[1..] && r.giveback == v.giveback
  {
    if s.done.Some? then
      var r := v.(urbs := v.urbs[1..], giveback := [Given(s.urb.id, s.done.value, s.urb.actualLength)] + v.giveback, io := s.io);
      assert r.giveback[|r.giveback| - |v.giveback|..] == v.giveback;
      r
    else
      var r := v.(urbs := [s.urb] + v.urbs[1..], io := s.io);
      assert r.giveback[|r.giveback| - |v.giveback|..] == v.giveback;
      r
  }

  /** The head request does not accept the oldest deferred message yet. */
  predicate Stuck(v: QView)
    requires |v.urbs| > 0 && |v.evq| > 0
  {
    UrbUpdate(v.urbs[0], v.evq[0], v.io).ret == -EAGAIN
  }

  /** One round of the replay: the oldest deferred message applied to the head
      request and removed. */
  function ReplayOne(v: QView): (r: QView)
    requires |v.urbs| > 0 && |v.evq| > 0
    ensures Conserves(v, r) && Accounted(v.io, r.io) && r.evq == v.evq[1..]
  {
    ApplyHead(v, UrbUpdate(v.urbs[0], v.evq[0], v.io)).(evq := v.evq[1..])
  }

  /** A replay round followed by more replay keeps what each part keeps. */
  lemma ReplayChain(v: QView, w: QView, r: QView)
    requires Conserves(v, w) && Accounted(v.io, w.io) && |v.evq| > 0 && w.evq == v.evq[1..]
    requires Conserves(w, r) && Accounted(w.io, r.io) && SuffixOf(r.evq, w.evq)
    ensures Conserves(v, r) && Accounted(v.io, r.io) && SuffixOf(r.evq, v.evq)
  {
    ConservesTrans(v, w, r);
    AccountedTrans(v.io, w.io, r.io);
    assert r.evq == v.evq[1..][|w.evq| - |r.evq|..];
  }

  /** `bce_vhci_transfer_queue_deliver_pending`: replays deferred messages, oldest
      first, against the head request while both lists are non-empty. A message
      is consumed on any result other than -EAGAIN; the first -EAGAIN stops the
      replay with that message still at the front. */
  function Delivered(v: QView): (r: QView)
    ensures Conserves(v, r)
    ensures SuffixOf(r.evq, v.evq)
    ensures Accounted(v.io, r.io)
    ensures r.urbs == [] || r.evq == [] || Stuck(r)
    decreases |v.evq|
  {
    if |v.urbs| == 0 || |v.evq| == 0 || Stuck(v) then
      AccountedRefl(v.io);
      v
    else
      var w := ReplayOne(v);
      var r := Delivered(w);
      ReplayChain(v, w, r);
      r
  }

  /** Replaying is idempotent: a replay that stopped stops again at once. */
  lemma DeliveredIdempotent(v: QView)
    ensures Delivered(Delivered(v)) == Delivered(v)
  {
    var r := Delivered(v);
    if |r.urbs| > 0 && |r.evq| > 0 {
      assert Stuck(r);
    }
  }

  /** `bce_vhci_transfer_queue_event` up to the final giveback: after the replay
      a transfer request is deferred whenever older messages still wait or no
      request is linked; any other message with no request linked is dropped;
      otherwise the message is applied to the head request and deferred if it
      does not apply yet. */
  function AfterEvent(v: QView, m: Message): (r: QView)
    ensures Conserves(v, r)
    ensures Accounted(v.io, r.io)
    ensures SuffixOf(r.evq, v.evq) || SuffixOf(r.evq, v.evq + [m])
    ensures m.cmd == TRANSFER_REQUEST && (|Delivered(v).evq| > 0 || |Delivered(v).urbs| == 0) ==>
              r == Delivered(v).(evq := Delivered(v).evq + [m])
    ensures m.cmd != TRANSFER_REQUEST && Delivered(v).urbs == [] ==> r == Delivered(v)
    ensures (&& Delivered(v).urbs != []
             && (m.cmd != TRANSFER_REQUEST || Delivered(v).evq == [])) ==>
      var d := Delivered(v);
      var s := UrbUpdate(d.urbs[0], m, d.io);
      && (s.ret == -EAGAIN ==> r == d.(evq := d.evq + [m]))
      && (s.ret != -EAGAIN ==> r == ApplyHead(d, s))
  {
    var d := Delivered(v);
    if m.cmd == TRANSFER_REQUEST && (|d.evq| > 0 || |d.urbs| == 0) then
      DeferKeeps(v, d, m);
      d.(evq := d.evq + [m])
    else if |d.urbs| == 0 then d
    else
      var s := UrbUpdate(d.urbs[0], m, d.io);
      if s.ret == -EAGAIN then
        DeferKeeps(v, d, m);
        d.(evq := d.evq + [m])
      else
        var r := ApplyHead(d, s);
        ConservesTrans(v, d, r);
        AccountedTrans(v.io, d.io, r.io);
        r
  }

  /** Deferring a message after a replay keeps the replay's facts, and the
      deferred list stays a suffix of the old one followed by the message. */
  lemma DeferKeeps(v: QView, d: QView, m: Message)
    requires Conserves(v, d) && Accounted(v.io, d.io) && SuffixOf(d.evq, v.evq)
    ensures Conserves(v, d.(evq := d.evq + [m])) && SuffixOf(d.evq + [m], v.evq + [m])
  {
    assert (v.evq + [m])[|v.evq| + 1 - |d.evq + [m]|..] == v.evq[|v.evq| - |d.evq|..] + [m];
  }

  /** A message other than a transfer request that arrives while no request is
      linked is dropped, and nothing changes. */
  lemma EventWithoutRequestDropped(v: QView, m: Message)
    requires v.urbs == [] && m.cmd != TRANSFER_REQUEST
    ensures AfterEvent(v, m) == v
  {
  }

  /** A transfer request never overtakes a deferred one: while older messages
      wait, it joins the back of the deferred list and nothing is applied. */
  lemma TransferRequestQueuesBehindBacklog(v: QView, m: Message)
    requires m.cmd == TRANSFER_REQUEST
    requires Delivered(v).evq != []
    ensures AfterEvent(v, m).evq == Delivered(v).evq + [m]
    ensures AfterEvent(v, m).evq[|AfterEvent(v, m).evq| - 1] == m
    ensures AfterEvent(v, m).urbs == Delivered(v).urbs
  {
  }

  /** `bce_notify_submission_complete`: the slot of a handled completion is
      free again. */
  function Notify(io: Io, ring: Ring): (r: Io)
    ensures Free(r, ring) == Free(io, ring) + 1 && r.posted == io.posted
    ensures forall other: Ring | other != ring :: Free(r, other) == Free(io, other)
  {
    match ring
    case AsyncRing => io.(asyncFree := io.asyncFree + 1)
    case InRing => io.(inFree := io.inFree + 1)
    case OutRing => io.(outFree := io.outFree + 1)
  }

  /** One completion read from ring `ring` (`bce_vhci_transfer_queue_completion`,
      loop body): an aborted one is skipped, as is one arriving with no request
      linked (its slot is then not returned to the ring); otherwise it is
      applied to the head request and its slot is returned. */
  function CompletionStep(ep: Endpoint, v: QView, ring: Ring, c: Completion): (r: QView)
    ensures Conserves(v, r) && r.evq == v.evq
    ensures c.aborted || v.urbs == [] ==> r == v
  {
    if c.aborted || |v.urbs| == 0 then v
    else
      var s := UrbTransferCompletion(ep, v.urbs[0], c.dataSize, v.io);
      var w := ApplyHead(v, s);
      w.(io := Notify(w.io, ring))
  }

  /** The completions `cs`, in the order they were read. */
  function Completions(ep: Endpoint, v: QView, ring: Ring, cs: seq<Completion>): (r: QView)
    ensures Conserves(v, r) && r.evq == v.evq
    decreases |cs|
  {
    if cs == [] then
      assert v.giveback[|v.giveback| - |v.giveback|..] == v.giveback;
      v
    else
      var w := CompletionStep(ep, v, ring, cs[0]);
      var r := Completions(ep, w, ring, cs[1..]);
      ConservesTrans(v, w, r);
      r
  }

  /** `bce_vhci_transfer_queue_completion` up to the final giveback. */
  function AfterCompletions(ep: Endpoint, v: QView, ring: Ring, cs: seq<Completion>): (r: QView)
    ensures Conserves(v, r)
    ensures SuffixOf(r.evq, v.evq)
  {
    var w := Completions(ep, v, ring, cs);
    var r := Delivered(w);
    ConservesTrans(v, w, r);
    r
  }

  /** Aborted completions, left behind by a flush, change nothing. */
  lemma {:induction false} AbortedCompletionsIgnored(ep: Endpoint, v: QView, ring: Ring, cs: seq<Completion>)
    requires forall i | 0 <= i < |cs| :: cs[i].aborted
    ensures Completions(ep, v, ring, cs) == v
    decreases |cs|
  {
    if cs != [] {
      AbortedCompletionsIgnored(ep, v, ring, cs[1..]);
    }
  }

  /** A bulk outbound request given back by a completion carries status 0 and
      the number of bytes the device reported as its actual length. */
  lemma BulkOutCompletionGivesBackOnce(ep: Endpoint, v: QView, ring: Ring, dataSize: U64)
    requires |v.urbs| > 0
    requires var u := v.urbs[0];
      !u.isControl && !u.dirIn && u.state == WaitingForCompletion && u.receiveOffset + dataSize >= u.length
      && u.receiveOffset + dataSize < TWO_32
    ensures var r := CompletionStep(ep, v, ring, Completion(false, dataSize));
      && r.urbs == v.urbs[1..]
      && r.giveback == [Given(v.urbs[0].id, 0, v.urbs[0].receiveOffset + dataSize)] + v.giveback
  {
  }

  /** One request of `bce_vhci_transfer_queue_resume`'s walk, with `s` the
      outcome of resuming it: a request that completes while resuming moves to
      the head of the giveback list, the others stay linked in their order. */
  function WalkStep(acc: QView, s: Step): (r: QView)
  {
    if s.done.Some? then
      acc.(giveback := [Given(s.urb.id, s.done.value, s.urb.actualLength)] + acc.giveback, io := s.io)
    else acc.(urbs := acc.urbs + [s.urb], io := s.io)
  }

  /** The identifiers of the requests in `us`. */
  ghost function Ids(us: seq<Urb>): set<nat>
  {
    set u | u in us :: u.id
  }

  /** The identifiers of `us`, in order. */
  ghost function UrbIds(us: seq<Urb>): seq<nat>
  {
    seq(|us|, i requires 0 <= i < |us| => us[i].id)
  }

  /** The identifiers of the giveback entries `gs`, in order. */
  ghost function GivenIds(gs: seq<Given>): seq<nat>
  {
    seq(|gs|, i requires 0 <= i < |gs| => gs[i].id)
  }

  ghost function Elems(xs: seq<nat>): set<nat>
  {
    set x | x in xs
  }

  /** The requests `xs`, visited in order, are split into those kept linked
      (`kept`, in the order visited) and those handed back (`given`, most
      recent first, since each is put at the head of the giveback list). */
  ghost predicate Walked(xs: seq<nat>, kept: seq<nat>, given: seq<nat>)
    decreases |xs|
  {
    if xs == [] then kept == [] && given == []
    else
      || (kept != [] && kept[0] == xs[0] && Walked(xs[1..], kept[1..], given))
      || (given != [] && given[|given| - 1] == xs[0] && Walked(xs[1..], kept, given[..|given| - 1]))
  }

  /** A walk neither loses nor invents a request. */
  lemma {:induction false} WalkedElems(xs: seq<nat>, kept: seq<nat>, given: seq<nat>)
    requires Walked(xs, kept, given)
    ensures Elems(xs) == Elems(kept) + Elems(given)
    decreases |xs|
  {
    if xs != [] {
      if kept != [] && kept[0] == xs[0] && Walked(xs[1..], kept[1..], given) {
        WalkedElems(xs[1..], kept[1..], given);
        ElemsCons(xs);
        ElemsCons(kept);
      } else {
        var g := given[..|given| - 1];
        WalkedElems(xs[1..], kept, g);
        ElemsCons(xs);
        assert given == g + [given[|given| - 1]];
      }
    }
  }

  lemma ElemsCons(xs: seq<nat>)
    requires xs != []
    ensures Elems(xs) == {xs[0]} + Elems(xs[1..])
  {
    assert xs == [xs[0]] + xs[1..];
  }

  /** The facts the walk keeps, from the walk's state `acc` with the requests
      `us` still to visit, to its result `r`: requests are handed back only
      at the head of the giveback list and with status -ENOMEM, the deferred
      messages are left alone, the device's slots are accounted for, and only
      requests that were linked stay linked. */
  ghost predicate WalkKeeps(acc: QView, us: seq<Urb>, r: QView)
  {
    && |r.urbs| + |r.giveback| == |acc.urbs| + |us| + |acc.giveback|
    && GrownAtHead(acc.giveback, r.giveback)
    && (forall k | 0 <= k < |r.giveback| - |acc.giveback| :: r.giveback[k].status == -ENOMEM)
    && r.evq == acc.evq && Accounted(acc.io, r.io)
    && Ids(r.urbs) <= Ids(acc.urbs + us)
  }

  lemma IdsConcat(a: seq<Urb>, b: seq<Urb>)
    ensures Ids(a + b) == Ids(a) + Ids(b)
  {
    var ab := a + b;
    forall x | x in ab ensures x in a || x in b {
      var i :| 0 <= i < |ab| && ab[i] == x;
      if i >= |a| {
        assert b[i - |a|] == x;
      }
    }
  }

  /** Replacing a request by an updated copy of itself keeps the invariant. */
  lemma ReplaceKeepsInv(v: QView, k: nat, x: Urb)
    requires Inv(v) && k < |v.urbs|
    requires x.id == v.urbs[k].id && (UrbInv(v.urbs[k]) ==> UrbInv(x))
    ensures Inv(v.(urbs := v.urbs[..k] + [x] + v.urbs[k + 1..]))
  {
    var us := v.urbs[..k] + [x] + v.urbs[k + 1..];
    assert forall a | 0 <= a < |us| :: us[a] == if a == k then x else v.urbs[a];
  }

  /** One request walked keeps the walk's facts. */
  lemma WalkChain(acc: QView, us: seq<Urb>, s: Step, r: QView)
    requires us != [] && s.urb.id == us[0].id && Accounted(acc.io, s.io)
    requires UrbInv(us[0]) ==> UrbInv(s.urb)
    requires s.done.Some? ==> s.done.value == -ENOMEM
    requires WalkKeeps(WalkStep(acc, s), us[1..], r)
    ensures WalkKeeps(acc, us, r)
  {
    var w := WalkStep(acc, s);
    AccountedTrans(acc.io, w.io, r.io);
    WalkGiveback(acc, w, r, s);
    WalkIds(acc, us, s);
  }

  /** From the walk's state `acc` with the requests `us` still to visit, to
      its result `r`: the requests already kept stay first, and every request
      visited is either kept behind them, in the order visited, or put at the
      head of the giveback list. */
  ghost predicate WalkSplits(acc: QView, us: seq<Urb>, r: QView)
  {
    && |acc.urbs| <= |r.urbs| && r.urbs[..|acc.urbs|] == acc.urbs
    && GrownAtHead(acc.giveback, r.giveback)
    && Walked(UrbIds(us), UrbIds(r.urbs[|acc.urbs|..]), GivenIds(r.giveback[..|r.giveback| - |acc.giveback|]))
  }

  /** A request walked is kept at the end of the kept requests or handed back
      at the head of the giveback list. */
  lemma WalkOrder(acc: QView, us: seq<Urb>, s: Step, r: QView)
    requires us != [] && s.urb.id == us[0].id
    requires WalkSplits(WalkStep(acc, s), us[1..], r) && GrownAtHead(acc.giveback, r.giveback)
    ensures WalkSplits(acc, us, r)
  {
    var w := WalkStep(acc, s);
    var xs := UrbIds(us);
    assert xs[0] == us[0].id && xs[1..] == UrbIds(us[1..]);
    var m := |acc.urbs|;
    assert r.urbs[..m] == r.urbs[..|w.urbs|][..m];
    var kept := UrbIds(r.urbs[m..]);
    var given := GivenIds(r.giveback[..|r.giveback| - |acc.giveback|]);
    if s.done.None? {
      assert r.urbs[m] == r.urbs[..|w.urbs|][m] == s.urb;
      assert kept[0] == s.urb.id;
      assert kept[1..] == UrbIds(r.urbs[m + 1..]);
    } else {
      var n := |r.giveback| - |w.giveback|;
      assert r.giveback[n] == r.giveback[n..][0] == w.giveback[0];
      assert given[|given| - 1] == s.urb.id;
      assert given[..|given| - 1] == GivenIds(r.giveback[..n]);
    }
  }

  /** A request the walk hands back is put at the head of the giveback list
      with status -ENOMEM. */
  lemma WalkGiveback(acc: QView, w: QView, r: QView, s: Step)
    requires w == WalkStep(acc, s) && (s.done.Some? ==> s.done.value == -ENOMEM)
    requires GrownAtHead(w.giveback, r.giveback)
    requires forall k | 0 <= k < |r.giveback| - |w.giveback| :: r.giveback[k].status == -ENOMEM
    ensures GrownAtHead(acc.giveback, r.giveback)
    ensures forall k | 0 <= k < |r.giveback| - |acc.giveback| :: r.giveback[k].status == -ENOMEM
  {
    if s.done.Some? {
      assert r.giveback[|r.giveback| - |acc.giveback|..] == w.giveback[1..];
      assert r.giveback[|r.giveback| - |w.giveback|] == w.giveback[0];
    }
  }

  /** The walk keeps linked only requests that were linked. */
  lemma WalkIds(acc: QView, us: seq<Urb>, s: Step)
    requires us != [] && s.urb.id == us[0].id
    ensures Ids(WalkStep(acc, s).urbs + us[1..]) <= Ids(acc.urbs + us)
  {
    var w := WalkStep(acc, s);
    assert us == [us[0]] + us[1..];
    IdsConcat(acc.urbs, us);
    IdsConcat([us[0]], us[1..]);
    IdsConcat(w.urbs, us[1..]);
    if s.done.None? {
      IdsConcat(acc.urbs, [s.urb]);
      assert Ids([s.urb]) == Ids([us[0]]);
    }
  }

  /** The walk keeps the invariant of the list it walks. */
  lemma WalkInv(acc: QView, us: seq<Urb>, s: Step)
    requires us != [] && s.urb.id == us[0].id
    requires UrbInv(us[0]) ==> UrbInv(s.urb)
    requires Inv(acc.(urbs := acc.urbs + us))
    ensures Inv(WalkStep(acc, s).(urbs := WalkStep(acc, s).urbs + us[1..]))
  {
    var v := acc.(urbs := acc.urbs + us);
    var k := |acc.urbs|;
    assert v.urbs[..k] == acc.urbs && v.urbs[k] == us[0] && v.urbs[k + 1..] == us[1..];
    if s.done.Some? {
      RemoveKeepsInv(v, k);
    } else {
      ReplaceKeepsInv(v, k, s.urb);
      assert acc.urbs + [s.urb] + us[1..] == v.urbs[..k] + [s.urb] + v.urbs[k + 1..];
    }
  }

  /** The walk from `acc` over the requests `us` still to visit. */
  function Resumed(ep: Endpoint, acc: QView, us: seq<Urb>): (r: QView)
    ensures WalkKeeps(acc, us, r)
    decreases |us|
  {
    if us == [] then
      AccountedRefl(acc.io);
      assert acc.giveback[|acc.giveback| - |acc.giveback|..] == acc.giveback;
      assert acc.urbs + us == acc.urbs;
      acc
    else
      var s := UrbResume(ep, us[0], acc.io);
      var r := Resumed(ep, WalkStep(acc, s), us[1..]);
      WalkChain(acc, us, s, r);
      r
  }

  /** The walk loses no request and keeps the order of those it keeps. */
  lemma {:induction false} ResumedSplits(ep: Endpoint, acc: QView, us: seq<Urb>)
    ensures WalkSplits(acc, us, Resumed(ep, acc, us))
    decreases |us|
  {
    if us == [] {
      assert acc.urbs[..|acc.urbs|] == acc.urbs;
      assert UrbIds(us) == [] && UrbIds(acc.urbs[|acc.urbs|..]) == [];
      assert GivenIds(acc.giveback[..0]) == [];
    } else {
      var s := UrbResume(ep, us[0], acc.io);
      ResumedSplits(ep, WalkStep(acc, s), us[1..]);
      WalkOrder(acc, us, s, Resumed(ep, WalkStep(acc, s), us[1..]));
    }
  }

  /** The walk keeps the invariant of the list it walks. */
  lemma {:induction false} ResumedInv(ep: Endpoint, acc: QView, us: seq<Urb>)
    requires Inv(acc.(urbs := acc.urbs + us))
    ensures Inv(Resumed(ep, acc, us))
    decreases |us|
  {
    if us == [] {
      assert acc.(urbs := acc.urbs + us) == acc;
    } else {
      var s := UrbResume(ep, us[0], acc.io);
      WalkInv(acc, us, s);
      ResumedInv(ep, WalkStep(acc, s), us[1..]);
    }
  }

  /** The part of `bce_vhci_transfer_queue_resume` after the device reported the
      endpoint active: every linked request resumed in order, then the replay.
      Requests completed here stay on the giveback list; resume does not hand
      them back. */
  function AfterResume(ep: Endpoint, v: QView): (r: QView)
    ensures |r.urbs| <= |v.urbs|
    ensures Ids(r.urbs) <= Ids(v.urbs)
  {
    var w := Resumed(ep, v.(urbs := []), v.urbs);
    assert v.(urbs := [] + v.urbs) == v;
    ConservesIds(w, Delivered(w));
    Delivered(w)
  }

  /** Resuming loses no request and invents none: every request linked before
      is either still linked or among the entries added at the head of the
      giveback list, and those entries are requests that were linked. Only
      deferred messages are consumed, and the device's slots are accounted
      for. */
  lemma ResumeConserves(ep: Endpoint, v: QView)
    ensures var r := AfterResume(ep, v);
      && |r.urbs| + |r.giveback| == |v.urbs| + |v.giveback|
      && Accounts(v, r)
      && SuffixOf(r.evq, v.evq)
      && Accounted(v.io, r.io)
  {
    var acc := v.(urbs := []);
    var w := Resumed(ep, acc, v.urbs);
    var r := Delivered(w);
    assert AfterResume(ep, v) == r;
    WalkThenReplay(v, w);
    ResumedAccounts(ep, v, w);
    ResumeAccounts(v, w, r);
  }

  lemma WalkThenReplay(v: QView, w: QView)
    requires WalkKeeps(v.(urbs := []), v.urbs, w)
    ensures var r := Delivered(w);
      && |r.urbs| + |r.giveback| == |v.urbs| + |v.giveback|
      && GrownAtHead(v.giveback, r.giveback)
      && SuffixOf(r.evq, v.evq)
      && Accounted(v.io, r.io)
  {
    var r := Delivered(w);
    assert Conserves(w, r) && Accounted(w.io, r.io);
    AccountedTrans(v.io, w.io, r.io);
    GrownAtHeadTrans(v.giveback, w.giveback, r.giveback);
  }

  /** No request is lost or invented from `v` to `r`: every request linked in
      `v` is either still linked in `r` or among the entries added at the head
      of the giveback list, and those are all requests of `v`. */
  ghost predicate Accounts(v: QView, r: QView)
  {
    GrownAtHead(v.giveback, r.giveback) && Ids(r.urbs) + Handed(v, r) == Ids(v.urbs)
  }

  /** The identifiers of the entries added at the head of the giveback list
      from `v` to `r`. */
  ghost function Handed(v: QView, r: QView): set<nat>
    requires |v.giveback| <= |r.giveback|
  {
    Elems(GivenIds(r.giveback[..|r.giveback| - |v.giveback|]))
  }

  /** The walk's accounting followed by a step's accounting. */
  lemma ResumeAccounts(v: QView, w: QView, r: QView)
    requires Accounts(v, w) && Conserves(w, r)
    ensures Accounts(v, r)
  {
    GrownAtHeadTrans(v.giveback, w.giveback, r.giveback);
    ConservesAccounts(w, r);
    GivenSplit(v, w, r);
    UnionChain(Ids(r.urbs), Handed(w, r), Handed(v, w), Ids(w.urbs), Handed(v, r), Ids(v.urbs));
  }

  lemma UnionChain<T>(kept: set<T>, given2: set<T>, given1: set<T>, mid: set<T>, given: set<T>, all: set<T>)
    requires kept + given2 == mid && mid + given1 == all && given == given2 + given1
    ensures kept + given == all
  {
  }

  /** The resume walk keeps linked or hands back every linked request, and
      nothing else. */
  lemma ResumedAccounts(ep: Endpoint, v: QView, w: QView)
    requires w == Resumed(ep, v.(urbs := []), v.urbs)
    ensures Accounts(v, w)
  {
    ResumedSplits(ep, v.(urbs := []), v.urbs);
    WalkAccounts(v, w);
  }

  /** The walk keeps linked or hands back every request it visits, and
      nothing else. */
  lemma WalkAccounts(v: QView, w: QView)
    requires WalkSplits(v.(urbs := []), v.urbs, w)
    ensures Accounts(v, w)
  {
    assert w.urbs[0..] == w.urbs;
    WalkedElems(UrbIds(v.urbs), UrbIds(w.urbs), GivenIds(w.giveback[..|w.giveback| - |v.giveback|]));
    IdsElems(v.urbs);
    IdsElems(w.urbs);
  }

  /** The entries added across two steps are those of the second step
      followed by those of the first. */
  lemma GivenSplit(a: QView, b: QView, c: QView)
    requires GrownAtHead(a.giveback, b.giveback) && GrownAtHead(b.giveback, c.giveback)
    ensures Handed(a, c) == Handed(b, c) + Handed(a, b)
  {
    var m1 := |b.giveback| - |a.giveback|;
    var m2 := |c.giveback| - |b.giveback|;
    assert c.giveback[..m2 + m1] == c.giveback[..m2] + b.giveback[..m1] by {
      assert c.giveback[m2..] == b.giveback;
    }
    assert GivenIds(c.giveback[..m2 + m1]) == GivenIds(c.giveback[..m2]) + GivenIds(b.giveback[..m1]);
  }

  /** The set of a list's identifiers is the set of the listed identifiers. */
  lemma IdsElems(us: seq<Urb>)
    ensures Ids(us) == Elems(UrbIds(us))
  {
    var xs := UrbIds(us);
    forall x | x in Elems(xs) ensures x in Ids(us) {
      var i :| 0 <= i < |xs| && xs[i] == x;
      assert us[i] in us;
    }
    forall x | x in Ids(us) ensures x in Elems(xs) {
      var u :| u in us && u.id == x;
      var i :| 0 <= i < |us| && us[i] == u;
      assert xs[i] == x;
    }
  }

  /** Across a step every request linked before is still linked or was just
      put on the giveback list, and nothing else was put there. */
  lemma ConservesAccounts(v: QView, r: QView)
    requires Conserves(v, r)
    ensures Accounts(v, r)
  {
    var n := |r.giveback| - |v.giveback|;
    var gs := GivenIds(r.giveback[..n]);
    ConservesIds(v, r);
    forall x | x in Elems(gs) ensures x in Ids(v.urbs) {
      var k :| 0 <= k < n && gs[k] == x;
      assert v.urbs[n - 1 - k] in v.urbs;
    }
    forall x | x in Ids(v.urbs) ensures x in Ids(r.urbs) + Elems(gs) {
      var u :| u in v.urbs && u.id == x;
      var i :| 0 <= i < |v.urbs| && v.urbs[i] == u;
      if i < n {
        assert gs[n - 1 - i] == x;
      } else {
        ConservesKept(v, r, i - n);
        assert r.urbs[i - n] in r.urbs;
      }
    }
  }

  /** Growing at the head composes along consecutive steps. */
  lemma GrownAtHeadTrans<T>(a: seq<T>, b: seq<T>, c: seq<T>)
    requires GrownAtHead(a, b) && GrownAtHead(b, c)
    ensures GrownAtHead(a, c)
  {
    assert c[|c| - |a|..] == c[|c| - |b|..][|b| - |a|..];
  }

  /** A request parked before initialisation on a paused queue is, after a
      resume with enough free slots, started: a bulk inbound request's transfer
      is issued. */
  lemma ResumeStartsParkedInbound(ep: Endpoint, v: QView)
    requires |v.urbs| == 1 && v.evq == []
    requires v.urbs[0].state == InitPaused && v.urbs[0].dirIn && !v.urbs[0].isControl
    requires UrbInv(v.urbs[0])
    requires v.io.asyncFree > 0 && v.io.inFree > 0
    ensures var r := AfterResume(ep, v);
      && r.giveback == v.giveback
      && |r.urbs| == 1 && r.urbs[0].state == WaitingForCompletion
      && r.io.inFree == v.io.inFree - 1 && r.io.asyncFree == v.io.asyncFree - 1
  {
    var u := v.urbs[0];
    var acc := v.(urbs := []);
    var s := UrbResume(ep, u, v.io);
    assert s.urb.state == WaitingForCompletion && s.done == None;
    assert v.urbs[1..] == [];
    assert Resumed(ep, acc, v.urbs) == WalkStep(acc, s);
  }

  /** The replay loop of `bce_vhci_transfer_queue_deliver_pending`, run over
      the queue's lists. */
  method Replay(v0: QView) returns (v: QView)
    ensures v == Delivered(v0)
  {
    v := v0;
    while |v.urbs| > 0 && |v.evq| > 0 && !Stuck(v)
      invariant Delivered(v) == Delivered(v0)
      decreases |v.evq|
    {
      v := ReplayOne(v);
    }
  }

  /** The body of `bce_vhci_transfer_queue_event` before the giveback, run over
      the queue's lists. */
  method ApplyEvent(v0: QView, m: Message) returns (v: QView)
    ensures v == AfterEvent(v0, m)
  {
    v := Replay(v0);
    if m.cmd == TRANSFER_REQUEST && (|v.evq| > 0 || |v.urbs| == 0) {
      v := v.(evq := v.evq + [m]);
    } else if |v.urbs| > 0 {
      var s := UrbUpdate(v.urbs[0], m, v.io);
      if s.ret == -EAGAIN {
        v := v.(evq := v.evq + [m]);
      } else {
        v := ApplyHead(v, s);
      }
    }
  }

  /** The completion loop of `bce_vhci_transfer_queue_completion` and the replay
      after it, run over the queue's lists. */
  method ApplyCompletions(ep: Endpoint, v0: QView, ring: Ring, cs: seq<Completion>) returns (v: QView)
    ensures v == AfterCompletions(ep, v0, ring, cs)
  {
    v := CompleteAll(ep, v0, ring, cs);
    v := Replay(v);
  }

  /** The completion loop of `bce_vhci_transfer_queue_completion` alone. */
  method CompleteAll(ep: Endpoint, v0: QView, ring: Ring, cs: seq<Completion>) returns (v: QView)
    ensures v == Completions(ep, v0, ring, cs)
  {
    v := v0;
    var i := 0;
    assert cs[0..] == cs;
    while i < |cs|
      invariant 0 <= i <= |cs|
      invariant Completions(ep, v, ring, cs[i..]) == Completions(ep, v0, ring, cs)
    {
      CompletionsNext(ep, v, ring, cs, i);
      v := CompletionStep(ep, v, ring, cs[i]);
      i := i + 1;
    }
    assert cs[i..] == [];
  }

  /** The completions from index `i` on: the one at `i`, then the rest. */
  lemma CompletionsNext(ep: Endpoint, v: QView, ring: Ring, cs: seq<Completion>, i: nat)
    requires i < |cs|
    ensures Completions(ep, v, ring, cs[i..]) == Completions(ep, CompletionStep(ep, v, ring, cs[i]), ring, cs[i + 1..])
  {
    assert cs[i..][1..] == cs[i + 1..];
  }

  /** The walk of `bce_vhci_transfer_queue_resume` over the linked requests
      (completed ones are unlinked as it goes) and the replay after it, run over
      the queue's lists. */
  method ApplyResume(ep: Endpoint, v0: QView) returns (v: QView)
    ensures v == AfterResume(ep, v0)
  {
    v := WalkLinked(ep, v0);
    v := Replay(v);
  }

  /** The walk of `bce_vhci_transfer_queue_resume` alone. */
  method WalkLinked(ep: Endpoint, v0: QView) returns (v: QView)
    ensures v == Resumed(ep, v0.(urbs := []), v0.urbs)
  {
    var us := v0.urbs;
    v := v0;
    var i := 0;
    var k := 0;
    ghost var acc := v0.(urbs := []);
    assert us[0..] == us;
    while i < |us|
      invariant 0 <= i <= |us|
      invariant k == |acc.urbs|
      invariant v == acc.(urbs := acc.urbs + us[i..])
      invariant Resumed(ep, acc, us[i..]) == Resumed(ep, v0.(urbs := []), us)
    {
      WalkAdvance(ep, acc, us, i, v, k);
      var s := UrbResume(ep, v.urbs[k], v.io);
      v, k := InPlace(v, k, s), NextSlot(k, s);
      acc := WalkStep(acc, s);
      i := i + 1;
    }
    assert acc.urbs + us[i..] == acc.urbs;
    assert Resumed(ep, acc, us[i..]) == acc;
  }

  /** One iteration of the walk: the request at slot `k` of the list is the
      `i`-th one, and stepping it in place keeps the list equal to the
      accumulated result followed by the requests still to visit. */
  lemma WalkAdvance(ep: Endpoint, acc: QView, us: seq<Urb>, i: nat, v: QView, k: nat)
    requires i < |us| && k == |acc.urbs| && v == acc.(urbs := acc.urbs + us[i..])
    ensures k < |v.urbs| && v.urbs[k] == us[i] && v.io == acc.io
    ensures var s := UrbResume(ep, us[i], acc.io);
      var w := WalkStep(acc, s);
      && InPlace(v, k, s) == w.(urbs := w.urbs + us[i + 1..])
      && NextSlot(k, s) == |w.urbs|
      && Resumed(ep, acc, us[i..]) == Resumed(ep, w, us[i + 1..])
  {
    assert us[i..] == [us[i]] + us[i + 1..];
    WalkInPlace(acc, us[i], us[i + 1..]);
    var s := UrbResume(ep, us[i], acc.io);
    WalkInPlaceStep(acc, us[i], us[i + 1..], s);
    ResumedNext(ep, acc, us, i, s);
  }

  /** The walk visits the request at `i`, then those after it. */
  lemma ResumedNext(ep: Endpoint, acc: QView, us: seq<Urb>, i: nat, s: Step)
    requires i < |us| && s == UrbResume(ep, us[i], acc.io)
    ensures Resumed(ep, acc, us[i..]) == Resumed(ep, WalkStep(acc, s), us[i + 1..])
  {
    assert us[i..][1..] == us[i + 1..];
  }

  /** One step of the walk on the list itself: the visited request at index
      `k` is unlinked and given back when its step completes it, and replaced
      by its updated copy otherwise. */
  function InPlace(v: QView, k: nat, s: Step): QView
    requires k < |v.urbs|
  {
    if s.done.Some? then
      v.(urbs := v.urbs[..k] + v.urbs[k + 1..],
         giveback := [Given(s.urb.id, s.done.value, s.urb.actualLength)] + v.giveback,
         io := s.io)
    else
      v.(urbs := v.urbs[..k] + [s.urb] + v.urbs[k + 1..], io := s.io)
  }

  /** The index of the next request to visit. */
  function NextSlot(k: nat, s: Step): nat
  {
    if s.done.Some? then k else k + 1
  }

  /** Unlinking or replacing the visited request in place, as the walk does on
      the linked list, is `WalkStep` followed by the requests still to visit. */
  lemma WalkInPlace(acc: QView, x: Urb, rest: seq<Urb>)
    ensures var v := acc.(urbs := acc.urbs + ([x] + rest));
      v.urbs[|acc.urbs|] == x && v.io == acc.io
  {
  }

  lemma WalkInPlaceStep(acc: QView, x: Urb, rest: seq<Urb>, s: Step)
    ensures var v := acc.(urbs := acc.urbs + ([x] + rest));
      var k := |acc.urbs|;
      var w := WalkStep(acc, s);
      && InPlace(v, k, s) == w.(urbs := w.urbs + rest)
      && NextSlot(k, s) == |w.urbs|
  {
    var v := acc.(urbs := acc.urbs + ([x] + rest));
    var k := |acc.urbs|;
    assert v.urbs[..k] == acc.urbs;
    assert v.urbs[k + 1..] == rest;
  }

  /** The transfer queue of one endpoint. */
  class TransferQueue {
    /** The endpoint's device and endpoint address. */
    const ep: Endpoint
    /** Whether the queue owns an inbound and an outbound submission ring. */
    const hasIn: bool
    const hasOut: bool
    /** Cleared while the endpoint is paused; new requests are then parked. */
    var active: bool
    /** Last endpoint state the device reported. */
    var state: EndpointState
    /** The requests linked to the endpoint, oldest first. */
    var urbs: seq<Urb>
    /** Deferred event messages, oldest first. */
    var evq: seq<Message>
    /** Completed requests not yet handed back, most recent first. */
    var giveback: seq<Given>
    /** Device-side resources: free ring slots and what was posted. */
    var io: Io
    /** Every request handed back to the USB core, in order. */
    var returned: seq<Given>
    /** Flush commands issued for the queue's rings, in order. */
    var flushes: seq<Ring>
    /** Identifier the next request receives. */
    var nextId: nat

    function View(): QView
      reads this`urbs, this`evq, this`giveback, this`io
    {
      QView(urbs, evq, giveback, io)
    }

    ghost predicate Valid()
      reads this`urbs, this`evq, this`giveback, this`io, this`nextId
    {
      && Inv(View())
      && (forall id | id in Ids(urbs) :: id < nextId)
    }

    /** `bce_vhci_create_transfer_queue`, without the rings' allocation: the
        queue starts active with every list empty. */
    constructor (ep: Endpoint, hasIn: bool, hasOut: bool, io: Io)
      ensures Valid()
      ensures this.ep == ep && this.hasIn == hasIn && this.hasOut == hasOut && this.io == io
      ensures active && state == EndpointActive
      ensures urbs == [] && evq == [] && giveback == [] && returned == [] && flushes == []
    {
      this.ep := ep;
      this.hasIn := hasIn;
      this.hasOut := hasOut;
      this.io := io;
      active := true;
      state := EndpointActive;
      urbs := [];
      evq := [];
      giveback := [];
      returned := [];
      flushes := [];
      nextId := 0;
    }

    /** Installs the lists of `v`, whose requests were linked already. */
    method SetView(v: QView)
      requires Valid() && Inv(v) && Ids(v.urbs) <= Ids(urbs)
      modifies this
      ensures Valid() && View() == v
      ensures active == old(active) && state == old(state) && returned == old(returned)
      ensures flushes == old(flushes) && nextId == old(nextId)
    {
      urbs, evq, giveback, io := v.urbs, v.evq, v.giveback, v.io;
    }

    /** `bce_vhci_transfer_queue_deliver_pending`. */
    method DeliverPending()
      requires Valid()
      modifies this
      ensures Valid()
      ensures View() == Delivered(old(View()))
      ensures active == old(active) && state == old(state) && returned == old(returned)
      ensures flushes == old(flushes) && nextId == old(nextId)
    {
      var v := Replay(View());
      ConservesIds(View(), v);
      ConservesInv(View(), v);
      SetView(v);
    }

    /** `bce_vhci_transfer_queue_giveback`: hands every completed request back
        to the USB core, from the head of the giveback list. */
    method Giveback()
      modifies this
      ensures giveback == [] && returned == old(returned) + old(giveback)
      ensures urbs == old(urbs) && evq == old(evq) && io == old(io) && active == old(active)
      ensures state == old(state) && flushes == old(flushes) && nextId == old(nextId)
    {
      while giveback != []
        invariant returned + giveback == old(returned) + old(giveback)
        invariant urbs == old(urbs) && evq == old(evq) && io == old(io) && active == old(active)
        invariant state == old(state) && flushes == old(flushes) && nextId == old(nextId)
        decreases |giveback|
      {
        returned := returned + [giveback[0]];
        giveback := giveback[1..];
      }
    }

    /** `bce_vhci_transfer_queue_event`. */
    method Event(m: Message)
      requires Valid()
      modifies this
      ensures Valid()
      ensures View() == AfterEvent(old(View()), m).(giveback := [])
      ensures returned == old(returned) + AfterEvent(old(View()), m).giveback
      ensures active == old(active) && state == old(state) && flushes == old(flushes)
    {
      var v := ApplyEvent(View(), m);
      ConservesIds(View(), v);
      ConservesInv(View(), v);
      SetView(v);
      Giveback();
    }

    /** `bce_vhci_transfer_queue_completion` for the completions `cs` read from
        ring `ring`. */
    method TransferCompletion(ring: Ring, cs: seq<Completion>)
      requires Valid()
      modifies this
      ensures Valid()
      ensures View() == AfterCompletions(ep, old(View()), ring, cs).(giveback := [])
      ensures returned == old(returned) + AfterCompletions(ep, old(View()), ring, cs).giveback
      ensures active == old(active) && state == old(state) && flushes == old(flushes)
    {
      var v := ApplyCompletions(ep, View(), ring, cs);
      ConservesIds(View(), v);
      ConservesInv(View(), v);
      SetView(v);
      Giveback();
    }

    /** `bce_vhci_transfer_queue_pause`. The device's answer to the set-state
        command is the pair (`setStatus`, `reported`). Deferred messages are
        dropped first; pending output is not waited for. */
    method Pause(setStatus: int, reported: EndpointState) returns (ret: int)
      requires Valid()
      modifies this
      ensures Valid()
      ensures !active && evq == [] && urbs == old(urbs) && giveback == old(giveback) && io == old(io)
      ensures returned == old(returned) && nextId == old(nextId)
      ensures setStatus != 0 ==> ret == setStatus && state == old(state) && flushes == old(flushes)
      ensures setStatus == 0 ==> state == reported
      ensures setStatus == 0 && reported != EndpointPaused ==> ret == -EINVAL && flushes == old(flushes)
      ensures setStatus == 0 && reported == EndpointPaused ==>
        ret == 0 && flushes == old(flushes) + (if hasIn then [InRing] else []) + (if hasOut then [OutRing] else [])
    {
      active := false;
      while evq != []
        invariant Valid() && !active
        invariant urbs == old(urbs) && giveback == old(giveback) && io == old(io)
        invariant returned == old(returned) && nextId == old(nextId)
        invariant state == old(state) && flushes == old(flushes)
        decreases |evq|
      {
        evq := evq[1..];
      }
      if setStatus != 0 {
        return setStatus;
      }
      state := reported;
      if state != EndpointPaused {
        return -EINVAL;
      }
      if hasIn {
        flushes := flushes + [InRing];
      }
      if hasOut {
        flushes := flushes + [OutRing];
      }
      return 0;
    }

    /** `bce_vhci_transfer_queue_resume`. The device's answer to the set-state
        command is the pair (`setStatus`, `reported`). */
    method Resume(setStatus: int, reported: EndpointState) returns (ret: int)
      requires Valid()
      modifies this
      ensures Valid()
      ensures returned == old(returned) && flushes == old(flushes) && nextId == old(nextId)
      ensures setStatus != 0 ==> ret == setStatus && View() == old(View()) && state == old(state) && active == old(active)
      ensures setStatus == 0 ==> state == reported
      ensures setStatus == 0 && reported != EndpointActive ==> ret == -EINVAL && View() == old(View()) && active == old(active)
      ensures setStatus == 0 && reported == EndpointActive ==> ret == 0 && active && View() == AfterResume(ep, old(View()))
    {
      if setStatus != 0 {
        ret := setStatus;
      } else if reported != EndpointActive {
        state := reported;
        ret := -EINVAL;
      } else {
        state := reported;
        active := true;
        ResumeLinked();
        ret := 0;
      }
    }

    /** The walk and replay of `bce_vhci_transfer_queue_resume`. */
    method ResumeLinked()
      requires Valid()
      modifies this
      ensures Valid()
      ensures View() == AfterResume(ep, old(View()))
      ensures active == old(active) && state == old(state) && returned == old(returned)
      ensures flushes == old(flushes) && nextId == old(nextId)
    {
      var v := ApplyResume(ep, View());
      ResumeKeepsIds(ep, View());
      SetView(v);
    }

    /** `bce_vhci_urb_create` for a request of `length` bytes, inbound exactly
        when `dirIn`, on the endpoint numbered `endpointNumber`. `linkStatus` is
        the USB core's answer to linking it to the endpoint. */
    method UrbCreate(dirIn: bool, endpointNumber: nat, length: U32, linkStatus: int) returns (ret: int)
      requires Valid()
      modifies this
      ensures Valid()
      ensures nextId == old(nextId) + 1
      ensures active == old(active) && state == old(state) && returned == old(returned) && flushes == old(flushes)
      ensures var u := NewUrb(old(nextId), dirIn, endpointNumber, length);
        && (linkStatus != 0 ==> ret == linkStatus && View() == old(View()))
        && (linkStatus == 0 && !active ==>
              ret == 0 && View() == Delivered(old(View()).(urbs := old(urbs) + [u])))
        && (linkStatus == 0 && active ==>
              var s := UrbInit(ep, u, old(io));
              && ret == s.ret
              && (ret != 0 ==> View() == old(View()))
              && (ret == 0 ==> View() == Delivered(old(View()).(urbs := old(urbs) + [s.urb], io := s.io))))
    {
      var u := NewUrb(nextId, dirIn, endpointNumber, length);
      nextId := nextId + 1;
      if linkStatus != 0 {
        return linkStatus;
      }
      var s := Step(u, io, 0, None);
      if active {
        s := UrbInit(ep, u, io);
      }
      if s.ret != 0 {
        return s.ret;
      }
      Link(s.urb, s.io);
      return 0;
    }

    /** Links the new request `x` at the tail and replays deferred messages;
        `newIo` is the device's state after `x` was started. */
    method Link(x: Urb, newIo: Io)
      requires Valid() && UrbInv(x) && x.id < nextId
      requires forall id | id in Ids(urbs) :: id < x.id
      modifies this
      ensures Valid()
      ensures View() == Delivered(old(View()).(urbs := old(urbs) + [x], io := newIo))
      ensures active == old(active) && state == old(state) && returned == old(returned)
      ensures flushes == old(flushes) && nextId == old(nextId)
    {
      ghost var v := View().(urbs := urbs + [x], io := newIo);
      AppendKeepsInv(View(), x, x.id);
      assert Inv(v) && Ids(v.urbs) == Ids(urbs + [x]);
      urbs := urbs + [x];
      io := newIo;
      assert View() == v;
      DeliverPending();
    }

    /** `bce_vhci_urb_cancel` for the request at index `i` of the endpoint's
        list, with status `status`. `checkStatus` is the USB core's answer to
        whether the request may be unlinked; it allows that only for a request
        linked to this endpoint. The request is handed back directly, not
        through the giveback list. */
    method UrbCancel(i: nat, status: int, checkStatus: int) returns (ret: int)
      requires Valid()
      requires checkStatus == 0 ==> i < |urbs|
      modifies this
      ensures Valid()
      ensures active == old(active) && state == old(state) && flushes == old(flushes) && nextId == old(nextId)
      ensures ret == checkStatus
      ensures checkStatus != 0 ==> View() == old(View()) && returned == old(returned)
      ensures checkStatus == 0 ==>
        && View() == Delivered(old(View()).(urbs := old(urbs)[..i] + old(urbs)[i + 1..]))
        && returned == old(returned) + [Given(old(urbs)[i].id, status, old(urbs)[i].actualLength)]
    {
      if checkStatus != 0 {
        return checkStatus;
      }
      returned := returned + [Given(urbs[i].id, status, urbs[i].actualLength)];
      Unlink(i);
      return 0;
    }

    /** Unlinks the request at index `i` and replays deferred messages. */
    method Unlink(i: nat)
      requires Valid() && i < |urbs|
      modifies this
      ensures Valid()
      ensures View() == Delivered(old(View()).(urbs := old(urbs)[..i] + old(urbs)[i + 1..]))
      ensures active == old(active) && state == old(state) && returned == old(returned)
      ensures flushes == old(flushes) && nextId == old(nextId)
    {
      var w := View().(urbs := urbs[..i] + urbs[i + 1..]);
      RemoveKeepsInv(View(), i);
      SetView(w);
      DeliverPending();
    }
  }

  /** Linking a request with a fresh identifier at the tail keeps the invariant. */
  lemma AppendKeepsInv(v: QView, u: Urb, bound: nat)
    requires Inv(v) && UrbInv(u) && (forall id | id in Ids(v.urbs) :: id < bound) && u.id == bound
    ensures Inv(v.(urbs := v.urbs + [u]))
    ensures forall id | id in Ids(v.urbs + [u]) :: id < bound + 1
  {
    var us := v.urbs + [u];
    assert Ids(us) == Ids(v.urbs) + {u.id};
    forall a, b | 0 <= a < b < |us| ensures us[a].id != us[b].id {
      if b == |us| - 1 {
        assert us[a] in v.urbs;
      }
    }
  }

  /** Unlinking any request keeps the invariant. */
  lemma RemoveKeepsInv(v: QView, i: nat)
    requires Inv(v) && i < |v.urbs|
    ensures Inv(v.(urbs := v.urbs[..i] + v.urbs[i + 1..]))
    ensures Ids(v.urbs[..i] + v.urbs[i + 1..]) <= Ids(v.urbs)
  {
    var us := v.urbs[..i] + v.urbs[i + 1..];
    assert forall a | 0 <= a < |us| :: us[a] == v.urbs[if a < i then a else a + 1];
    forall x | x in us ensures x in v.urbs {
      var a :| 0 <= a < |us| && us[a] == x;
    }
  }

  /** The requests a resume keeps are requests that were linked. */
  lemma ResumeKeepsIds(ep: Endpoint, v: QView)
    ensures Ids(AfterResume(ep, v).urbs) <= Ids(v.urbs)
    ensures Inv(v) ==> Inv(AfterResume(ep, v))
  {
    var w := Resumed(ep, v.(urbs := []), v.urbs);
    assert v.(urbs := [] + v.urbs) == v;
    ConservesIds(w, Delivered(w));
    if Inv(v) {
      ResumedInv(ep, v.(urbs := []), v.urbs);
      ConservesInv(w, Delivered(w));
    }
  }
}
