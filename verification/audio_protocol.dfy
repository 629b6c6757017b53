/** The audio message codec (audio/protocol.c): writers lay a header, a base
    and the message's fields out in a byte buffer; readers check the base's
    message kind and read fields back at fixed offsets.

    The structure layouts and message kinds come from protocol.h, which is not
    part of this model: the header is 16 bytes (a 4-byte tag, the message type
    byte at offset 4 and the 64-bit device id at offset 5), the base is two
    32-bit words (message kind, status), an object id is 32 bits wide, and all
    values are little-endian. */
module AudioProtocol {
  import opened Kernel

  const HEADER_SIZE: nat := 16
  const TYPE_OFFSET: nat := 4
  const DEVICE_ID_OFFSET: nat := 5
  const BASE_SIZE: nat := 8

  // Message types (the header's type byte).
  const TYPE_COMMAND: U8 := 1
  const TYPE_RESPONSE: U8 := 2
  const TYPE_NOTIFICATION: U8 := 3

  // Message kinds (the base's first word). Only their distinctness matters here.
  const START_IO: U32 := 0
  const START_IO_RESPONSE: U32 := 1
  const UPDATE_TIMESTAMP: U32 := 4
  const SET_PROPERTY: U32 := 9
  const SET_PROPERTY_RESPONSE: U32 := 10
  const SET_REMOTE_ACCESS: U32 := 32
  const SET_REMOTE_ACCESS_RESPONSE: U32 := 33
  const UPDATE_TIMESTAMP_RESPONSE: U32 := 34
  const NOTIFICATION_ALIVE: U32 := 100

  /** 256 to the power `n`: the number of values `n` bytes hold. */
  function Pow256(n: nat): (r: nat)
    ensures r > 0
  {
    if n == 0 then 1 else 256 * Pow256(n - 1)
  }

  /** Four bytes hold a u32 and eight bytes a u64. */
  lemma Widths()
    ensures Pow256(4) == TWO_32 && Pow256(8) == TWO_32 * TWO_32
  {
    assert Pow256(2) == 0x1_0000;
    assert Pow256(4) == 256 * 256 * Pow256(2);
    assert Pow256(8) == 256 * 256 * 256 * 256 * Pow256(4);
  }

  /** `v` stored little-endian in `n` bytes. */
  function LE(v: nat, n: nat): (r: seq<U8>)
    ensures |r| == n
  {
    if n == 0 then [] else [v % 256] + LE(v / 256, n - 1)
  }

  /** The value of little-endian bytes. */
  function Decode(bs: seq<U8>): (r: nat)
    ensures r < Pow256(|bs|)
  {
    if bs == [] then 0 else bs[0] + 256 * Decode(bs[1..])
  }

  /** Storing a value that fits and reading it back gives the value. */
  lemma {:induction false} DecodeLE(v: nat, n: nat)
    requires v < Pow256(n)
    ensures Decode(LE(v, n)) == v
  {
    if n > 0 {
      DecodeLE(v / 256, n - 1);
      assert LE(v, n)[1..] == LE(v / 256, n - 1);
    }
  }

  /** Reading bytes and storing the value again gives the same bytes. */
  lemma {:induction false} LEDecode(bs: seq<U8>)
    ensures LE(Decode(bs), |bs|) == bs
  {
    if bs != [] {
      LEDecode(bs[1..]);
      var v := Decode(bs);
      assert v % 256 == bs[0] && v / 256 == Decode(bs[1..]);
    }
  }

  /** The value of the `n` bytes at `off`. */
  function ReadLE(bytes: seq<U8>, off: nat, n: nat): nat
    requires off + n <= |bytes|
  {
    Decode(bytes[off..off + n])
  }

  /** `bytes` with `x` copied in at `off`. */
  function Splice(bytes: seq<U8>, off: nat, x: seq<U8>): (r: seq<U8>)
    requires off + |x| <= |bytes|
    ensures |r| == |bytes|
  {
    bytes[..off] + x + bytes[off + |x|..]
  }

  /** Storing one more byte just past a copy extends the copy. */
  lemma SpliceExtend(bytes: seq<U8>, off: nat, y: seq<U8>, c: U8)
    requires off + |y| < |bytes|
    ensures Splice(bytes, off, y)[off + |y| := c] == Splice(bytes, off, y + [c])
  {
    var l := Splice(bytes, off, y)[off + |y| := c];
    var r := Splice(bytes, off, y + [c]);
    forall j | 0 <= j < |bytes| ensures l[j] == r[j] {
      if j < off {
      } else if j < off + |y| {
        assert r[j] == (y + [c])[j - off];
      } else if j == off + |y| {
        assert r[j] == (y + [c])[j - off];
      }
    }
  }

  /** Two copies that meet make one copy. */
  lemma SpliceJoin(bytes: seq<U8>, off: nat, x: seq<U8>, y: seq<U8>)
    requires off + |x| + |y| <= |bytes|
    ensures Splice(Splice(bytes, off, x), off + |x|, y) == Splice(bytes, off, x + y)
  {
    var s := Splice(bytes, off, x);
    assert s[..off + |x|] == bytes[..off] + x;
    assert s[off + |x| + |y|..] == bytes[off + |x| + |y|..];
  }

  /** The buffer `bytes` once a writer has set the header's type and device id
      and laid `body` out after the header. The tag and the padding after the
      device id keep what the buffer held. */
  function Compose(bytes: seq<U8>, typev: U8, devid: U64, body: seq<U8>): (r: seq<U8>)
    requires HEADER_SIZE + |body| <= |bytes|
    ensures |r| == |bytes|
  {
    Splice(Splice(bytes, TYPE_OFFSET, [typev] + LE(devid, 8)), HEADER_SIZE, body)
  }

  /** What a composed buffer holds, field by field. */
  lemma ComposeFields(bytes: seq<U8>, typev: U8, devid: U64, body: seq<U8>)
    requires HEADER_SIZE + |body| <= |bytes|
    ensures var r := Compose(bytes, typev, devid, body);
      && r[..TYPE_OFFSET] == bytes[..TYPE_OFFSET]
      && r[TYPE_OFFSET] == typev
      && r[DEVICE_ID_OFFSET..DEVICE_ID_OFFSET + 8] == LE(devid, 8)
      && r[HEADER_SIZE..HEADER_SIZE + |body|] == body
      && r[HEADER_SIZE + |body|..] == bytes[HEADER_SIZE + |body|..]
  {
    var x := [typev] + LE(devid, 8);
    var h := Splice(bytes, TYPE_OFFSET, x);
    var r := Compose(bytes, typev, devid, body);
    assert h[TYPE_OFFSET..TYPE_OFFSET + 9] == x;
    assert h[DEVICE_ID_OFFSET..DEVICE_ID_OFFSET + 8] == x[1..];
    assert r[..HEADER_SIZE] == h[..HEADER_SIZE];
    assert r[DEVICE_ID_OFFSET..DEVICE_ID_OFFSET + 8] == h[DEVICE_ID_OFFSET..DEVICE_ID_OFFSET + 8];
  }

  /** The device id and the body can be read back from a composed buffer. */
  lemma ComposeReads(bytes: seq<U8>, typev: U8, devid: U64, body: seq<U8>, k: nat, n: nat)
    requires HEADER_SIZE + |body| <= |bytes| && k + n <= |body|
    ensures var r := Compose(bytes, typev, devid, body);
      && ReadLE(r, DEVICE_ID_OFFSET, 8) == devid
      && ReadLE(r, HEADER_SIZE + k, n) == Decode(body[k..k + n])
  {
    var r := Compose(bytes, typev, devid, body);
    ComposeFields(bytes, typev, devid, body);
    DecodeLE(devid, 8);
    assert r[HEADER_SIZE + k..HEADER_SIZE + k + n] == r[HEADER_SIZE..HEADER_SIZE + |body|][k..k + n];
  }

  /** A value stored at `k` in the body reads back from the composed buffer. */
  lemma ComposeReadsValue(bytes: seq<U8>, typev: U8, devid: U64, body: seq<U8>, k: nat, n: nat, v: nat)
    requires HEADER_SIZE + |body| <= |bytes| && k + n <= |body|
    requires body[k..k + n] == LE(v, n) && v < Pow256(n)
    ensures ReadLE(Compose(bytes, typev, devid, body), HEADER_SIZE + k, n) == v
  {
    ComposeReads(bytes, typev, devid, body, k, n);
    DecodeLE(v, n);
  }

  /** `struct aaudio_msg_base`: the message kind and a status word. */
  datatype Base = Base(msg: U32, status: U32)

  /** A received message: its buffer and `size`, the number of bytes the
      sender filled in. */
  datatype Msg = Msg(data: seq<U8>, size: nat)

  /** The base as the bytes a writer lays out: the kind, then a zero status. */
  function BaseBytes(kind: U32): (r: seq<U8>)
    ensures |r| == BASE_SIZE
  {
    LE(kind, 4) + LE(0, 4)
  }

  /** `aaudio_msg_read_base`: -EINVAL for a message shorter than a header and
      two bases, the base after the header otherwise. */
  function ReadBase(m: Msg): (r: Result<Base>)
    requires m.size <= |m.data|
    ensures r.Err? <==> m.size < HEADER_SIZE + 2 * BASE_SIZE
    ensures r.Err? ==> r.code == -EINVAL
    ensures r.Ok? ==> r.value == Base(ReadLE(m.data, HEADER_SIZE, 4), ReadLE(m.data, HEADER_SIZE + 4, 4))
  {
    if m.size < HEADER_SIZE + 2 * BASE_SIZE then Err(-EINVAL)
    else
      DecodeBound(m.data[HEADER_SIZE..HEADER_SIZE + 4]);
      DecodeBound(m.data[HEADER_SIZE + 4..HEADER_SIZE + 8]);
      Ok(Base(ReadLE(m.data, HEADER_SIZE, 4), ReadLE(m.data, HEADER_SIZE + 4, 4)))
  }

  /** Four bytes hold a 32-bit value. */
  lemma DecodeBound(bs: seq<U8>)
    requires |bs| == 4
    ensures Decode(bs) < TWO_32
  {
    Widths();
  }

  /** The kind in the base after the header, which `READ_START` compares with
      the kind a reader expects. */
  function Kind(m: Msg): nat
    requires HEADER_SIZE + BASE_SIZE <= |m.data|
  {
    ReadLE(m.data, HEADER_SIZE, 4)
  }

  /** The field values `aaudio_msg_read_update_timestamp` returns. */
  datatype Timestamp = Timestamp(devid: nat, timestamp: nat, updateSeed: nat)

  /** `aaudio_msg_read_start_io_response`: 0 for a START_IO_RESPONSE message,
      -EINVAL for any other kind. */
  function ReadStartIoResponse(m: Msg): (r: int)
    requires HEADER_SIZE + BASE_SIZE <= |m.data|
    ensures r == 0 <==> Kind(m) == START_IO_RESPONSE
    ensures r != 0 ==> r == -EINVAL
  {
    if Kind(m) != START_IO_RESPONSE then -EINVAL else 0
  }

  /** `aaudio_msg_read_update_timestamp`: for an UPDATE_TIMESTAMP message, the
      device id from the header and the two 64-bit words after the base;
      -EINVAL for any other kind. */
  function ReadUpdateTimestamp(m: Msg): (r: Result<Timestamp>)
    requires HEADER_SIZE + BASE_SIZE + 16 <= |m.data|
    ensures r.Ok? <==> Kind(m) == UPDATE_TIMESTAMP
    ensures r.Err? ==> r.code == -EINVAL
    ensures r.Ok? ==>
      r.value == Timestamp(ReadLE(m.data, DEVICE_ID_OFFSET, 8), ReadLE(m.data, HEADER_SIZE + BASE_SIZE, 8),
                           ReadLE(m.data, HEADER_SIZE + BASE_SIZE + 8, 8))
  {
    if Kind(m) != UPDATE_TIMESTAMP then Err(-EINVAL)
    else
      var off := HEADER_SIZE + BASE_SIZE;
      var devid := ReadLE(m.data, DEVICE_ID_OFFSET, 8);
      var timestamp := ReadLE(m.data, off, 8);
      var seed := ReadLE(m.data, off + 8, 8);
      Ok(Timestamp(devid, timestamp, seed))
  }

  /** `aaudio_msg_read_set_property_response`, which checks for the kind
      UPDATE_TIMESTAMP_RESPONSE: the object id after the base for such a
      message, -EINVAL for any other kind. */
  function ReadSetPropertyResponse(m: Msg): (r: Result<nat>)
    requires HEADER_SIZE + BASE_SIZE + 4 <= |m.data|
    ensures r.Ok? <==> Kind(m) == UPDATE_TIMESTAMP_RESPONSE
    ensures r.Err? ==> r.code == -EINVAL
    ensures r.Ok? ==> r.value == ReadLE(m.data, HEADER_SIZE + BASE_SIZE, 4)
  {
    if Kind(m) != UPDATE_TIMESTAMP_RESPONSE then Err(-EINVAL)
    else Ok(ReadLE(m.data, HEADER_SIZE + BASE_SIZE, 4))
  }

  /** `aaudio_msg_read_set_remote_access_response`: 0 for a
      SET_REMOTE_ACCESS_RESPONSE message, -EINVAL for any other kind. */
  function ReadSetRemoteAccessResponse(m: Msg): (r: int)
    requires HEADER_SIZE + BASE_SIZE <= |m.data|
    ensures r == 0 <==> Kind(m) == SET_REMOTE_ACCESS_RESPONSE
    ensures r != 0 ==> r == -EINVAL
  {
    if Kind(m) != SET_REMOTE_ACCESS_RESPONSE then -EINVAL else 0
  }

  // The bodies the writers lay out after the header: the base, then the fields.

  function StartIoBody(): seq<U8>
  {
    BaseBytes(START_IO)
  }

  function SetPropertyBody(obj: U32, element: U32, scope: U32, selector: U32, value: seq<U8>, qualifier: seq<U8>):
    seq<U8>
    requires |value| < TWO_32 * TWO_32 && |qualifier| < TWO_32 * TWO_32
  {
    BaseBytes(SET_PROPERTY) + LE(obj, 4) + LE(element, 4) + LE(scope, 4) + LE(selector, 4)
    + LE(|value|, 8) + value + LE(|qualifier|, 8) + qualifier
  }

  function SetRemoteAccessBody(mode: U64): seq<U8>
  {
    BaseBytes(SET_REMOTE_ACCESS) + LE(mode, 8)
  }

  function AliveNotificationBody(protoVer: U32, msgVer: U32): seq<U8>
  {
    BaseBytes(NOTIFICATION_ALIVE) + LE(protoVer, 4) + LE(msgVer, 4)
  }

  function UpdateTimestampResponseBody(): seq<U8>
  {
    BaseBytes(UPDATE_TIMESTAMP_RESPONSE)
  }

  /** Every body a writer lays out starts with the base (kind, 0), which reads
      back as that kind and a zero status. */
  lemma BaseBytesRead(kind: U32, rest: seq<U8>)
    ensures var b := BaseBytes(kind) + rest;
      && Decode(b[..4]) == kind && Decode(b[4..BASE_SIZE]) == 0
  {
    var b := BaseBytes(kind) + rest;
    assert b[..4] == LE(kind, 4) && b[4..BASE_SIZE] == LE(0, 4);
    Widths();
    DecodeLE(kind, 4);
    DecodeLE(0, 4);
  }

  /** The 32 bytes a set-property body starts with. */
  function SetPropertyHead(obj: U32, element: U32, scope: U32, selector: U32, valueSize: U64): (r: seq<U8>)
    ensures |r| == 32
  {
    BaseBytes(SET_PROPERTY) + LE(obj, 4) + LE(element, 4) + LE(scope, 4) + LE(selector, 4) + LE(valueSize, 8)
  }

  lemma SetPropertySplit(obj: U32, element: U32, scope: U32, selector: U32, value: seq<U8>, qualifier: seq<U8>)
    requires |value| < TWO_32 * TWO_32 && |qualifier| < TWO_32 * TWO_32
    ensures SetPropertyBody(obj, element, scope, selector, value, qualifier)
         == SetPropertyHead(obj, element, scope, selector, |value|) + value + LE(|qualifier|, 8) + qualifier
  {
  }

  /** The head of a set-property body: the base (SET_PROPERTY, 0), the object
      id, element, scope and selector as 32-bit words and the value's length as
      a 64-bit word. */
  lemma SetPropertyHeadFields(obj: U32, element: U32, scope: U32, selector: U32, valueSize: U64)
    ensures var h := SetPropertyHead(obj, element, scope, selector, valueSize);
      && Decode(h[..4]) == SET_PROPERTY && Decode(h[4..8]) == 0
      && Decode(h[8..12]) == obj && Decode(h[12..16]) == element
      && Decode(h[16..20]) == scope && Decode(h[20..24]) == selector
      && Decode(h[24..32]) == valueSize
  {
    var h := SetPropertyHead(obj, element, scope, selector, valueSize);
    assert h[..4] == LE(SET_PROPERTY, 4) && h[4..8] == LE(0, 4);
    assert h[8..12] == LE(obj, 4) && h[12..16] == LE(element, 4);
    assert h[16..20] == LE(scope, 4) && h[20..24] == LE(selector, 4);
    assert h[24..] == LE(valueSize, 8);
    assert h[24..32] == h[24..];
    Widths();
    DecodeLE(SET_PROPERTY, 4);
    DecodeLE(0, 4);
    DecodeLE(obj, 4);
    DecodeLE(element, 4);
    DecodeLE(scope, 4);
    DecodeLE(selector, 4);
    DecodeLE(valueSize, 8);
  }

  /** The set-property layout: the 32-byte head, the value verbatim, the
      qualifier's length as a 64-bit word, the qualifier verbatim; 40 bytes
      plus the two payloads in all. */
  lemma SetPropertyLayout(obj: U32, element: U32, scope: U32, selector: U32, value: seq<U8>, qualifier: seq<U8>)
    requires |value| < TWO_32 * TWO_32 && |qualifier| < TWO_32 * TWO_32
    ensures var b := SetPropertyBody(obj, element, scope, selector, value, qualifier);
      var q := 32 + |value|;
      && |b| == 40 + |value| + |qualifier|
      && Decode(b[..4]) == SET_PROPERTY && Decode(b[4..8]) == 0
      && Decode(b[8..12]) == obj && Decode(b[12..16]) == element
      && Decode(b[16..20]) == scope && Decode(b[20..24]) == selector
      && Decode(b[24..32]) == |value| && b[32..q] == value
      && Decode(b[q..q + 8]) == |qualifier| && b[q + 8..] == qualifier
  {
    var b := SetPropertyBody(obj, element, scope, selector, value, qualifier);
    var h := SetPropertyHead(obj, element, scope, selector, |value|);
    var q := 32 + |value|;
    SetPropertySplit(obj, element, scope, selector, value, qualifier);
    SetPropertyHeadFields(obj, element, scope, selector, |value|);
    assert b[..32] == h;
    assert b[..4] == h[..4] && b[4..8] == h[4..8] && b[8..12] == h[8..12] && b[12..16] == h[12..16];
    assert b[16..20] == h[16..20] && b[20..24] == h[20..24] && b[24..32] == h[24..32];
    assert b[32..q] == value && b[q..q + 8] == LE(|qualifier|, 8) && b[q + 8..] == qualifier;
    Widths();
    DecodeLE(|qualifier|, 8);
  }

  /** `struct aaudio_msg`: a message buffer and the number of bytes in use. */
  class AudioMsg {
    const data: array<U8>
    var size: nat

    /** A zeroed buffer of `capacity` bytes with nothing in use. */
    constructor (capacity: nat)
      ensures data.Length == capacity && fresh(data) && size == 0
      ensures forall i | 0 <= i < capacity :: data[i] == 0
    {
      data := new U8[capacity](_ => 0);
      size := 0;
    }

    /** The message as a reader sees it. */
    function View(): Msg
      reads this, data
    {
      Msg(data[..], size)
    }

    /** Copies `x` into the buffer at `offset` (`WRITE_VAL`, `WRITE_BIN`) and
        returns the offset after it. */
    method Put(offset: nat, x: seq<U8>) returns (next: nat)
      requires offset + |x| <= data.Length
      modifies data
      ensures data[..] == Splice(old(data[..]), offset, x)
      ensures next == offset + |x|
    {
      var i := 0;
      while i < |x|
        invariant 0 <= i <= |x|
        invariant data[..] == Splice(old(data[..]), offset, x[..i])
      {
        SpliceExtend(old(data[..]), offset, x[..i], x[i]);
        data[offset + i] := x[i];
        assert x[..i + 1] == x[..i] + [x[i]];
        i := i + 1;
      }
      assert x[..i] == x;
      next := offset + |x|;
    }

    /** `WRITE_START_OF_TYPE`: sets the header's type and device id and
        returns the offset just past the header. */
    method WriteStart(typev: U8, devid: U64) returns (offset: nat)
      requires HEADER_SIZE <= data.Length
      modifies data
      ensures data[..] == Compose(old(data[..]), typev, devid, [])
      ensures offset == HEADER_SIZE
    {
      ghost var orig := data[..];
      data[TYPE_OFFSET] := typev;
      assert data[..] == Splice(orig, TYPE_OFFSET, [typev]);
      var _ := Put(DEVICE_ID_OFFSET, LE(devid, 8));
      SpliceJoin(orig, TYPE_OFFSET, [typev], LE(devid, 8));
      offset := HEADER_SIZE;
    }

    /** A field `x` written after the part `body` already laid out behind the
        header. */
    method Append(ghost orig: seq<U8>, ghost typev: U8, ghost devid: U64, ghost body: seq<U8>, offset: nat,
                  x: seq<U8>)
      returns (next: nat)
      requires |orig| == data.Length && HEADER_SIZE + |body| + |x| <= data.Length
      requires data[..] == Compose(orig, typev, devid, body) && offset == HEADER_SIZE + |body|
      modifies data
      ensures data[..] == Compose(orig, typev, devid, body + x)
      ensures next == offset + |x|
    {
      next := Put(offset, x);
      SpliceJoin(Splice(orig, TYPE_OFFSET, [typev] + LE(devid, 8)), HEADER_SIZE, body, x);
    }

    /** `aaudio_msg_write_start_io`: a command for device `dev` with the base
        (START_IO, 0). */
    method WriteStartIo(dev: U64)
      requires HEADER_SIZE + BASE_SIZE <= data.Length
      modifies this, data
      ensures data[..] == Compose(old(data[..]), TYPE_COMMAND, dev, StartIoBody())
      ensures size == HEADER_SIZE + |StartIoBody()|
    {
      ghost var orig := data[..];
      var offset := WriteStart(TYPE_COMMAND, dev);
      offset := Append(orig, TYPE_COMMAND, dev, [], offset, LE(START_IO, 4));
      offset := Append(orig, TYPE_COMMAND, dev, LE(START_IO, 4), offset, LE(0, 4));
      size := offset;
    }

    /** `aaudio_msg_write_set_property`: a command for device `dev` with the
        base (SET_PROPERTY, 0), then the object id, the property address, and
        the value and the qualifier, each after its length. */
    method WriteSetProperty(dev: U64, obj: U32, element: U32, scope: U32, selector: U32, value: seq<U8>,
                            qualifier: seq<U8>)
      requires |value| < TWO_32 * TWO_32 && |qualifier| < TWO_32 * TWO_32
      requires HEADER_SIZE + 40 + |value| + |qualifier| <= data.Length
      modifies this, data
      ensures data[..] == Compose(old(data[..]), TYPE_COMMAND, dev,
                                  SetPropertyBody(obj, element, scope, selector, value, qualifier))
      ensures size == HEADER_SIZE + |SetPropertyBody(obj, element, scope, selector, value, qualifier)|
    {
      ghost var orig := data[..];
      var offset := WriteStart(TYPE_COMMAND, dev);
      ghost var b: seq<U8> := [];
      offset := Append(orig, TYPE_COMMAND, dev, b, offset, LE(SET_PROPERTY, 4));
      b := b + LE(SET_PROPERTY, 4);
      offset := Append(orig, TYPE_COMMAND, dev, b, offset, LE(0, 4));
      b := b + LE(0, 4);
      offset := Append(orig, TYPE_COMMAND, dev, b, offset, LE(obj, 4));
      b := b + LE(obj, 4);
      offset := Append(orig, TYPE_COMMAND, dev, b, offset, LE(element, 4));
      b := b + LE(element, 4);
      offset := Append(orig, TYPE_COMMAND, dev, b, offset, LE(scope, 4));
      b := b + LE(scope, 4);
      offset := Append(orig, TYPE_COMMAND, dev, b, offset, LE(selector, 4));
      b := b + LE(selector, 4);
      offset := Append(orig, TYPE_COMMAND, dev, b, offset, LE(|value|, 8));
      b := b + LE(|value|, 8);
      offset := Append(orig, TYPE_COMMAND, dev, b, offset, value);
      b := b + value;
      offset := Append(orig, TYPE_COMMAND, dev, b, offset, LE(|qualifier|, 8));
      b := b + LE(|qualifier|, 8);
      offset := Append(orig, TYPE_COMMAND, dev, b, offset, qualifier);
      b := b + qualifier;
      assert b == SetPropertyBody(obj, element, scope, selector, value, qualifier);
      size := offset;
    }

    /** `aaudio_msg_write_set_remote_access`: a command for device 0 with the
        base (SET_REMOTE_ACCESS, 0) and the 64-bit mode. */
    method WriteSetRemoteAccess(mode: U64)
      requires HEADER_SIZE + BASE_SIZE + 8 <= data.Length
      modifies this, data
      ensures data[..] == Compose(old(data[..]), TYPE_COMMAND, 0, SetRemoteAccessBody(mode))
      ensures size == HEADER_SIZE + |SetRemoteAccessBody(mode)|
    {
      ghost var orig := data[..];
      var offset := WriteStart(TYPE_COMMAND, 0);
      ghost var b: seq<U8> := [];
      offset := Append(orig, TYPE_COMMAND, 0, b, offset, LE(SET_REMOTE_ACCESS, 4));
      b := b + LE(SET_REMOTE_ACCESS, 4);
      offset := Append(orig, TYPE_COMMAND, 0, b, offset, LE(0, 4));
      b := b + LE(0, 4);
      offset := Append(orig, TYPE_COMMAND, 0, b, offset, LE(mode, 8));
      b := b + LE(mode, 8);
      assert b == SetRemoteAccessBody(mode);
      size := offset;
    }

    /** `aaudio_msg_write_alive_notification`: a notification for device 0
        with the base (NOTIFICATION_ALIVE, 0), then the protocol and message
        versions. */
    method WriteAliveNotification(protoVer: U32, msgVer: U32)
      requires HEADER_SIZE + BASE_SIZE + 8 <= data.Length
      modifies this, data
      ensures data[..] == Compose(old(data[..]), TYPE_NOTIFICATION, 0, AliveNotificationBody(protoVer, msgVer))
      ensures size == HEADER_SIZE + |AliveNotificationBody(protoVer, msgVer)|
    {
      ghost var orig := data[..];
      var offset := WriteStart(TYPE_NOTIFICATION, 0);
      ghost var b := LE(NOTIFICATION_ALIVE, 4);
      offset := Append(orig, TYPE_NOTIFICATION, 0, [], offset, LE(NOTIFICATION_ALIVE, 4));
      offset := Append(orig, TYPE_NOTIFICATION, 0, b, offset, LE(0, 4));
      b := b + LE(0, 4);
      offset := Append(orig, TYPE_NOTIFICATION, 0, b, offset, LE(protoVer, 4));
      b := b + LE(protoVer, 4);
      offset := Append(orig, TYPE_NOTIFICATION, 0, b, offset, LE(msgVer, 4));
      size := offset;
    }

    /** `aaudio_msg_write_update_timestamp_response`: a response for device 0
        with the base (UPDATE_TIMESTAMP_RESPONSE, 0) and nothing else. */
    method WriteUpdateTimestampResponse()
      requires HEADER_SIZE + BASE_SIZE <= data.Length
      modifies this, data
      ensures data[..] == Compose(old(data[..]), TYPE_RESPONSE, 0, UpdateTimestampResponseBody())
      ensures size == HEADER_SIZE + |UpdateTimestampResponseBody()|
    {
      ghost var orig := data[..];
      var offset := WriteStart(TYPE_RESPONSE, 0);
      offset := Append(orig, TYPE_RESPONSE, 0, [], offset, LE(UPDATE_TIMESTAMP_RESPONSE, 4));
      offset := Append(orig, TYPE_RESPONSE, 0, LE(UPDATE_TIMESTAMP_RESPONSE, 4), offset, LE(0, 4));
      size := offset;
    }
  }

  /** A message laid out by a writer reads back as written: the header's type
      byte and device id, and the base's kind with a zero status; the tag bytes
      are untouched. */
  lemma WrittenHeaderAndBase(bytes: seq<U8>, typev: U8, devid: U64, kind: U32, rest: seq<U8>)
    requires HEADER_SIZE + BASE_SIZE + |rest| <= |bytes|
    ensures var r := Compose(bytes, typev, devid, BaseBytes(kind) + rest);
      && r[..TYPE_OFFSET] == bytes[..TYPE_OFFSET] && r[TYPE_OFFSET] == typev
      && ReadLE(r, DEVICE_ID_OFFSET, 8) == devid
      && Kind(Msg(r, HEADER_SIZE + BASE_SIZE + |rest|)) == kind
      && ReadLE(r, HEADER_SIZE + 4, 4) == 0
  {
    var body := BaseBytes(kind) + rest;
    ComposeFields(bytes, typev, devid, body);
    ComposeReads(bytes, typev, devid, body, 0, 4);
    ComposeReads(bytes, typev, devid, body, 4, 4);
    BaseBytesRead(kind, rest);
  }

  /** The remote-access command goes to device 0 and carries the mode as a
      64-bit word after the base. */
  lemma RemoteAccessLayout(bytes: seq<U8>, mode: U64)
    requires HEADER_SIZE + BASE_SIZE + 8 <= |bytes|
    ensures var r := Compose(bytes, TYPE_COMMAND, 0, SetRemoteAccessBody(mode));
      && |SetRemoteAccessBody(mode)| == BASE_SIZE + 8
      && ReadLE(r, DEVICE_ID_OFFSET, 8) == 0
      && Kind(Msg(r, HEADER_SIZE + BASE_SIZE + 8)) == SET_REMOTE_ACCESS
      && ReadLE(r, HEADER_SIZE + BASE_SIZE, 8) == mode
  {
    var body := SetRemoteAccessBody(mode);
    assert body[BASE_SIZE..BASE_SIZE + 8] == LE(mode, 8);
    Widths();
    WrittenHeaderAndBase(bytes, TYPE_COMMAND, 0, SET_REMOTE_ACCESS, LE(mode, 8));
    ComposeReadsValue(bytes, TYPE_COMMAND, 0, body, BASE_SIZE, 8, mode);
  }

  /** The alive notification goes to device 0 and carries the protocol and
      message versions as 32-bit words after the base. */
  lemma AliveNotificationLayout(bytes: seq<U8>, protoVer: U32, msgVer: U32)
    requires HEADER_SIZE + BASE_SIZE + 8 <= |bytes|
    ensures var r := Compose(bytes, TYPE_NOTIFICATION, 0, AliveNotificationBody(protoVer, msgVer));
      && |AliveNotificationBody(protoVer, msgVer)| == BASE_SIZE + 8
      && r[TYPE_OFFSET] == TYPE_NOTIFICATION && ReadLE(r, DEVICE_ID_OFFSET, 8) == 0
      && Kind(Msg(r, HEADER_SIZE + BASE_SIZE + 8)) == NOTIFICATION_ALIVE
      && ReadLE(r, HEADER_SIZE + BASE_SIZE, 4) == protoVer
      && ReadLE(r, HEADER_SIZE + BASE_SIZE + 4, 4) == msgVer
  {
    var body := AliveNotificationBody(protoVer, msgVer);
    assert body[BASE_SIZE..BASE_SIZE + 4] == LE(protoVer, 4);
    assert body[BASE_SIZE + 4..BASE_SIZE + 8] == LE(msgVer, 4);
    assert body == BaseBytes(NOTIFICATION_ALIVE) + (LE(protoVer, 4) + LE(msgVer, 4));
    Widths();
    WrittenHeaderAndBase(bytes, TYPE_NOTIFICATION, 0, NOTIFICATION_ALIVE, LE(protoVer, 4) + LE(msgVer, 4));
    ComposeReadsValue(bytes, TYPE_NOTIFICATION, 0, body, BASE_SIZE, 4, protoVer);
    ComposeReadsValue(bytes, TYPE_NOTIFICATION, 0, body, BASE_SIZE + 4, 4, msgVer);
  }

  /** `aaudio_msg_read_base` rejects every message that holds only a header
      and a base, such as the ones the start-io and update-timestamp-response
      writers produce, however the buffer is filled. */
  lemma ReadBaseRejectsBaseOnly(bytes: seq<U8>)
    requires HEADER_SIZE + BASE_SIZE <= |bytes|
    ensures ReadBase(Msg(bytes, HEADER_SIZE + BASE_SIZE)) == Err(-EINVAL)
  {
  }

  /** A message with a header, a base of kind `kind` and at least one more
      base's worth of bytes reads back through `aaudio_msg_read_base` as
      (kind, 0). */
  lemma ReadBaseOfWritten(bytes: seq<U8>, typev: U8, devid: U64, kind: U32, rest: seq<U8>)
    requires HEADER_SIZE + BASE_SIZE + |rest| <= |bytes| && |rest| >= BASE_SIZE
    ensures ReadBase(Msg(Compose(bytes, typev, devid, BaseBytes(kind) + rest), HEADER_SIZE + BASE_SIZE + |rest|))
         == Ok(Base(kind, 0))
  {
    WrittenHeaderAndBase(bytes, typev, devid, kind, rest);
  }

  lemma TimestampBodySlices(status: U32, timestamp: U64, seed: U64)
    ensures var body := LE(UPDATE_TIMESTAMP, 4) + LE(status, 4) + LE(timestamp, 8) + LE(seed, 8);
      body[0..4] == LE(UPDATE_TIMESTAMP, 4) && body[8..16] == LE(timestamp, 8) && body[16..24] == LE(seed, 8)
  {
  }

  /** An UPDATE_TIMESTAMP message laid out as header, base, timestamp and
      update seed reads back as its device id, timestamp and seed. */
  lemma UpdateTimestampRoundTrip(bytes: seq<U8>, typev: U8, devid: U64, status: U32, timestamp: U64, seed: U64)
    requires HEADER_SIZE + BASE_SIZE + 16 <= |bytes|
    ensures var body := LE(UPDATE_TIMESTAMP, 4) + LE(status, 4) + LE(timestamp, 8) + LE(seed, 8);
      var m := Msg(Compose(bytes, typev, devid, body), HEADER_SIZE + |body|);
      ReadUpdateTimestamp(m) == Ok(Timestamp(devid, timestamp, seed))
  {
    var body := LE(UPDATE_TIMESTAMP, 4) + LE(status, 4) + LE(timestamp, 8) + LE(seed, 8);
    TimestampBodySlices(status, timestamp, seed);
    Widths();
    ComposeReadsValue(bytes, typev, devid, body, 0, 4, UPDATE_TIMESTAMP);
    ComposeReadsValue(bytes, typev, devid, body, 8, 8, timestamp);
    ComposeReadsValue(bytes, typev, devid, body, 16, 8, seed);
    ComposeReads(bytes, typev, devid, body, 0, 0);
  }

  /** The set-property-response reader checks for the kind
      UPDATE_TIMESTAMP_RESPONSE, so a genuine SET_PROPERTY_RESPONSE is
      rejected with -EINVAL, whatever follows its base. */
  lemma SetPropertyResponseRejected(bytes: seq<U8>, typev: U8, devid: U64, status: U32, obj: U32)
    requires HEADER_SIZE + BASE_SIZE + 4 <= |bytes|
    ensures var reply := LE(SET_PROPERTY_RESPONSE, 4) + LE(status, 4) + LE(obj, 4);
      ReadSetPropertyResponse(Msg(Compose(bytes, typev, devid, reply), HEADER_SIZE + |reply|)) == Err(-EINVAL)
  {
    var reply := LE(SET_PROPERTY_RESPONSE, 4) + LE(status, 4) + LE(obj, 4);
    assert reply[0..4] == LE(SET_PROPERTY_RESPONSE, 4);
    Widths();
    ComposeReadsValue(bytes, typev, devid, reply, 0, 4, SET_PROPERTY_RESPONSE);
  }

  /** An UPDATE_TIMESTAMP_RESPONSE followed by an object id passes the
      set-property-response reader, which returns that object id. */
  lemma SetPropertyResponseAccepted(bytes: seq<U8>, typev: U8, devid: U64, status: U32, obj: U32)
    requires HEADER_SIZE + BASE_SIZE + 4 <= |bytes|
    ensures var other := LE(UPDATE_TIMESTAMP_RESPONSE, 4) + LE(status, 4) + LE(obj, 4);
      ReadSetPropertyResponse(Msg(Compose(bytes, typev, devid, other), HEADER_SIZE + |other|)) == Ok(obj)
  {
    var other := LE(UPDATE_TIMESTAMP_RESPONSE, 4) + LE(status, 4) + LE(obj, 4);
    assert other[0..4] == LE(UPDATE_TIMESTAMP_RESPONSE, 4) && other[8..12] == LE(obj, 4);
    Widths();
    ComposeReadsValue(bytes, typev, devid, other, 0, 4, UPDATE_TIMESTAMP_RESPONSE);
    ComposeReadsValue(bytes, typev, devid, other, 8, 4, obj);
  }
}
