/** The fixed-size message exchanged with the coprocessor on the vhci message,
    event and command queues, and the opcodes and status codes the core uses. */
module VhciMessage {
  import opened Kernel

  /** `struct bce_vhci_message`: a 16-bit opcode with flag bits, a 16-bit status
      and two parameters. */
  datatype Message = Message(cmd: U16, status: U16, param1: U32, param2: U64)

  /** Unsolicited "the device is ready to move param2 bytes" notification. */
  const TRANSFER_REQUEST: U16 := 0x1000
  /** Notification carrying the final status of a control transfer. */
  const CONTROL_TRANSFER_STATUS: U16 := 0x1005

  // The opcode's flag bits are tested and set arithmetically: bit 14 of a
  // 16-bit opcode is `(cmd / 0x4000) % 2`, and its two top bits are `cmd / 0x4000`.

  /** Bit 14 of an opcode, set in a cancellation request. */
  const CANCEL_BIT: U16 := 0x4000

  /** `cmd & 0x4000` is non-zero. */
  predicate IsCancel(cmd: U16) { (cmd / 0x4000) % 2 == 1 }

  /** `cmd | 0x4000`. */
  function WithCancel(cmd: U16): U16 { if IsCancel(cmd) then cmd else cmd + CANCEL_BIT }

  // Status codes of the vhci protocol. Their header is not part of this model;
  // the model relies only on SUCCESS being non-zero, since a recorded status of
  // zero means "no status yet".
  const SUCCESS: U16 := 1
  const ABORT: U16 := 4

  /** The opcode a request is identified by: `cmd & ~0x4000`, which keeps
      the low 14 bits and bit 15 and clears bit 14. */
  function RequestKey(cmd: U16): (r: U16)
    ensures r % 0x4000 == cmd % 0x4000 && r / 0x8000 == cmd / 0x8000 && !IsCancel(r)
  {
    if IsCancel(cmd) then cmd - CANCEL_BIT else cmd
  }

  /** The opcode a reply is identified by: `cmd & ~0xC000`, the two reply-tag
      bits (the top two) removed and every other bit kept. */
  function ReplyKey(cmd: U16): (r: U16)
    ensures r < 0x4000 && (cmd - r) % 0x4000 == 0
  {
    cmd % 0x4000
  }

  /** A cancellation request carries the opcode of the request it cancels, so
      a reply to either is accepted for both. */
  lemma CancelKeepsIdentity(cmd: U16)
    ensures RequestKey(WithCancel(cmd)) == RequestKey(cmd)
    ensures IsCancel(WithCancel(cmd))
  {
  }

  /** Reply-tag bits never change which request a reply answers. */
  lemma ReplyTagsIgnored(cmd: U16, tag: nat)
    requires tag < 4
    ensures ReplyKey(ReplyKey(cmd) + tag * 0x4000) == ReplyKey(cmd)
  {
  }
}
