/** The integer core of the audio PCM glue: the mapping from the coprocessor's
    stream description to an ALSA sample format, the hardware record filled
    from it, the trigger callback, and the playback-position estimate. */
module Pcm {
  import opened Kernel

  // ---------------------------------------------------------------------------
  // Stream description
  // ---------------------------------------------------------------------------

  /** The format flags of `struct aaudio_apple_description`, one boolean per
      `AAUDIO_FORMAT_FLAG_*` bit. The flags' bit values live in a header that
      is not part of this model; the code only tests them one at a time. */
  datatype FormatFlags = FormatFlags(
    float: bool, bigEndian: bool, signed: bool, packed: bool,
    alignedHigh: bool, nonInterleaved: bool, nonMixable: bool)

  /** The integer fields of `struct aaudio_apple_description` that the PCM
      code reads. The sample rate arrives as a double and is converted
      elsewhere; the converted rate is an input of `HwInfo.Create`. */
  datatype Description = Description(
    flags: FormatFlags, bitsPerChannel: U32, channelsPerFrame: U32, bytesPerPacket: U32)

  // ---------------------------------------------------------------------------
  // ALSA sample formats
  // ---------------------------------------------------------------------------

  /** The ALSA sample formats the mapping can produce. */
  datatype SampleFormat =
    | S8 | U8
    | S16_LE | S16_BE | U16_LE | U16_BE
    | S24_LE | S24_BE | U24_LE | U24_BE
    | S32_LE | S32_BE | U32_LE | U32_BE
    | FLOAT_LE | FLOAT_BE | FLOAT64_LE | FLOAT64_BE
    | S24_3LE | S24_3BE | U24_3LE | U24_3BE

  /** `SNDRV_PCM_FMTBIT_x`, which is `1 << SNDRV_PCM_FORMAT_x`. */
  function FmtBit(f: SampleFormat): (r: U64)
    ensures r > 0
  {
    match f
    case S8 => 0x1
    case U8 => 0x2
    case S16_LE => 0x4
    case S16_BE => 0x8
    case U16_LE => 0x10
    case U16_BE => 0x20
    case S24_LE => 0x40
    case S24_BE => 0x80
    case U24_LE => 0x100
    case U24_BE => 0x200
    case S32_LE => 0x400
    case S32_BE => 0x800
    case U32_LE => 0x1000
    case U32_BE => 0x2000
    case FLOAT_LE => 0x4000
    case FLOAT_BE => 0x8000
    case FLOAT64_LE => 0x1_0000
    case FLOAT64_BE => 0x2_0000
    case S24_3LE => 0x1_0000_0000
    case S24_3BE => 0x2_0000_0000
    case U24_3LE => 0x4_0000_0000
    case U24_3BE => 0x8_0000_0000
  }

  /** The properties ALSA attaches to each format. */
  predicate IsFloat(f: SampleFormat) {
    f in {FLOAT_LE, FLOAT_BE, FLOAT64_LE, FLOAT64_BE}
  }

  predicate IsSigned(f: SampleFormat) {
    f in {S8, S16_LE, S16_BE, S24_LE, S24_BE, S32_LE, S32_BE,
          FLOAT_LE, FLOAT_BE, FLOAT64_LE, FLOAT64_BE, S24_3LE, S24_3BE}
  }

  predicate IsBigEndian(f: SampleFormat) {
    f in {S16_BE, U16_BE, S24_BE, U24_BE, S32_BE, U32_BE,
          FLOAT_BE, FLOAT64_BE, S24_3BE, U24_3BE}
  }

  /** Bytes one sample occupies in memory. */
  function PhysicalBytes(f: SampleFormat): nat {
    match f
    case S8 | U8 => 1
    case S16_LE | S16_BE | U16_LE | U16_BE => 2
    case S24_3LE | S24_3BE | U24_3LE | U24_3BE => 3
    case FLOAT64_LE | FLOAT64_BE => 8
    case _ => 4
  }

  /** Bits of one sample that carry the value (24 for the `S24`/`U24`
      formats, which sit in the low three bytes of a 32-bit word). */
  function SignificantBits(f: SampleFormat): nat {
    match f
    case S8 | U8 => 8
    case S16_LE | S16_BE | U16_LE | U16_BE => 16
    case S24_LE | S24_BE | U24_LE | U24_BE | S24_3LE | S24_3BE | U24_3LE | U24_3BE => 24
    case FLOAT64_LE | FLOAT64_BE => 64
    case _ => 32
  }

  /** The macro `DEFINE_BPC_OPTION`: one of four formats by endianness and sign. */
  function ByEndianAndSign(flags: FormatFlags, sbe: SampleFormat, ube: SampleFormat,
                           sle: SampleFormat, ule: SampleFormat): SampleFormat
  {
    if flags.bigEndian then (if flags.signed then sbe else ube)
    else (if flags.signed then sle else ule)
  }

  /** `aaudio_get_alsa_fmtbit` as a decision table: `None` where the code
      returns 0. The branches follow the code: float first, then packed
      (whose widths 8, 16 and 32 fall through), then aligned-high, then the
      plain widths. A chosen format agrees with the description: float-ness,
      sample width, and (for integers) sign; endianness except for 8-bit
      samples; three bytes per sample exactly for packed 24-bit samples, and
      the value in the top 24 bits of a 32-bit word for high-aligned ones. */
  function AlsaFormat(flags: FormatFlags, bits: U32): (r: Option<SampleFormat>)
    ensures r.Some? ==>
      && IsFloat(r.value) == flags.float
      && (!flags.float ==> IsSigned(r.value) == flags.signed)
      && (bits != 8 ==> IsBigEndian(r.value) == flags.bigEndian)
      && (!flags.float && flags.packed && bits == 24 <==> PhysicalBytes(r.value) == 3)
      && (if !flags.float && flags.alignedHigh && !flags.packed
          then SignificantBits(r.value) == 32 && PhysicalBytes(r.value) == 4
          else SignificantBits(r.value) == bits)
  {
    if flags.float then
      if bits == 32 then Some(if flags.bigEndian then FLOAT_BE else FLOAT_LE)
      else if bits == 64 then Some(if flags.bigEndian then FLOAT64_BE else FLOAT64_LE)
      else None
    else if flags.packed && bits == 24 then
      Some(ByEndianAndSign(flags, S24_3BE, U24_3BE, S24_3LE, U24_3LE))
    else if flags.packed && bits !in {8, 16, 32} then None
    else if flags.alignedHigh then
      if bits == 24 then Some(ByEndianAndSign(flags, S32_BE, U32_BE, S32_LE, U32_LE))
      else None
    else if bits == 8 then Some(if flags.signed then S8 else U8)
    else if bits == 16 then Some(ByEndianAndSign(flags, S16_BE, U16_BE, S16_LE, U16_LE))
    else if bits == 24 then Some(ByEndianAndSign(flags, S24_BE, U24_BE, S24_LE, U24_LE))
    else if bits == 32 then Some(ByEndianAndSign(flags, S32_BE, U32_BE, S32_LE, U32_LE))
    else None
  }

  /** `aaudio_get_alsa_fmtbit`: the format's bit, or 0 when unsupported. */
  function GetAlsaFmtbit(desc: Description): (r: U64)
    ensures r == 0 <==> AlsaFormat(desc.flags, desc.bitsPerChannel).None?
  {
    match AlsaFormat(desc.flags, desc.bitsPerChannel)
    case None => 0
    case Some(f) => FmtBit(f)
  }

  /** The descriptions the coprocessor may send that have an ALSA format:
      float samples of 32 or 64 bits, and integer samples of 8, 16, 24 or 32
      bits, where a high-aligned sample must be 24 bits wide. */
  predicate Supported(flags: FormatFlags, bits: U32) {
    if flags.float then bits == 32 || bits == 64
    else ((bits == 8 || bits == 16 || bits == 24 || bits == 32) && (flags.alignedHigh ==> bits == 24))
  }

  /** A format bit is found exactly for the supported descriptions. */
  lemma FmtbitSupported(desc: Description)
    ensures GetAlsaFmtbit(desc) != 0 <==> Supported(desc.flags, desc.bitsPerChannel)
  {
  }

  /** A canonical description of each format: the flags and width that the
      coprocessor would send for it. */
  function Canonical(f: SampleFormat): (FormatFlags, U32) {
    var plain := FormatFlags(IsFloat(f), IsBigEndian(f), IsSigned(f), false, false, false, false);
    (plain.(packed := PhysicalBytes(f) == 3), SignificantBits(f))
  }

  /** Every format in the table is produced for its canonical description. */
  lemma FormatReachable(f: SampleFormat)
    ensures AlsaFormat(Canonical(f).0, Canonical(f).1) == Some(f)
  {
  }

  /** The format bit identifies the format. */
  lemma FmtBitIdentifies(f: SampleFormat, g: SampleFormat)
    ensures FmtBit(g) == FmtBit(f) <==> g == f
  {
  }

  /** With the FLOAT flag only 32- and 64-bit samples are supported, and
      endianness picks the format. */
  lemma FloatFormats(flags: FormatFlags, bits: U32)
    requires flags.float
    ensures bits == 32 ==> AlsaFormat(flags, bits) == Some(if flags.bigEndian then FLOAT_BE else FLOAT_LE)
    ensures bits == 64 ==> AlsaFormat(flags, bits) == Some(if flags.bigEndian then FLOAT64_BE else FLOAT64_LE)
    ensures bits != 32 && bits != 64 ==> AlsaFormat(flags, bits) == None
  {
  }

  /** With the PACKED flag, 24-bit samples map to the three-byte formats, 8,
      16 and 32 fall through to the later checks, and other widths fail. */
  lemma PackedFormats(flags: FormatFlags, bits: U32)
    requires !flags.float && flags.packed
    ensures bits == 24 ==>
      AlsaFormat(flags, bits) == Some(ByEndianAndSign(flags, S24_3BE, U24_3BE, S24_3LE, U24_3LE))
    ensures bits in {8, 16, 32} ==>
      AlsaFormat(flags, bits) == AlsaFormat(flags.(packed := false), bits)
    ensures bits !in {8, 16, 24, 32} ==> AlsaFormat(flags, bits) == None
  {
  }

  /** With ALIGNED_HIGH (and not the packed 24-bit case) only 24-bit samples
      are accepted, as 32-bit formats; packed 8/16/32 that fell through fail. */
  lemma AlignedHighFormats(flags: FormatFlags, bits: U32)
    requires !flags.float && flags.alignedHigh && !(flags.packed && bits == 24)
    ensures bits == 24 ==>
      AlsaFormat(flags, bits) == Some(ByEndianAndSign(flags, S32_BE, U32_BE, S32_LE, U32_LE))
    ensures bits != 24 ==> AlsaFormat(flags, bits) == None
  {
  }

  /** Without FLOAT, PACKED or ALIGNED_HIGH, 8-bit samples ignore endianness,
      16, 24 and 32 pick by endianness and sign, and other widths fail. */
  lemma PlainFormats(flags: FormatFlags, bits: U32)
    requires !flags.float && !flags.packed && !flags.alignedHigh
    ensures bits == 8 ==> AlsaFormat(flags, bits) == Some(if flags.signed then S8 else U8)
    ensures bits == 8 ==> AlsaFormat(flags, bits) == AlsaFormat(flags.(bigEndian := !flags.bigEndian), bits)
    ensures bits == 16 ==> AlsaFormat(flags, bits) == Some(ByEndianAndSign(flags, S16_BE, U16_BE, S16_LE, U16_LE))
    ensures bits == 24 ==> AlsaFormat(flags, bits) == Some(ByEndianAndSign(flags, S24_BE, U24_BE, S24_LE, U24_LE))
    ensures bits == 32 ==> AlsaFormat(flags, bits) == Some(ByEndianAndSign(flags, S32_BE, U32_BE, S32_LE, U32_LE))
    ensures bits !in {8, 16, 24, 32} ==> AlsaFormat(flags, bits) == None
  {
  }

  // ---------------------------------------------------------------------------
  // Hardware description
  // ---------------------------------------------------------------------------

  // `SNDRV_PCM_INFO_*` bits.
  const INFO_MMAP: U32 := 0x1
  const INFO_MMAP_VALID: U32 := 0x2
  const INFO_DOUBLE: U32 := 0x4
  const INFO_INTERLEAVED: U32 := 0x100
  const INFO_BLOCK_TRANSFER: U32 := 0x1_0000

  /** The capabilities every stream advertises. */
  const BASE_INFO: U32 := INFO_MMAP + INFO_BLOCK_TRANSFER + INFO_MMAP_VALID + INFO_DOUBLE

  /** Bit `INFO_INTERLEAVED` of an info word. */
  predicate Interleaved(info: U32) { (info / INFO_INTERLEAVED) % 2 == 1 }

  /** `struct snd_pcm_hardware`, the record `aaudio_create_hw_info` fills in. */
  class HwInfo {
    var info: U32
    var formats: U64
    var rates: U32
    var rateMin: U32
    var rateMax: U32
    var channelsMin: U32
    var channelsMax: U32
    var bufferBytesMax: U64
    var periodBytesMin: U64
    var periodBytesMax: U64
    var periodsMin: U32
    var periodsMax: U32

    /** A zeroed record. */
    constructor()
      ensures info == 0 && formats == 0 && rates == 0
      ensures rateMin == 0 && rateMax == 0 && channelsMin == 0 && channelsMax == 0
      ensures bufferBytesMax == 0 && periodBytesMin == 0 && periodBytesMax == 0
      ensures periodsMin == 0 && periodsMax == 0
    {
      info, formats, rates := 0, 0, 0;
      rateMin, rateMax, channelsMin, channelsMax := 0, 0, 0, 0;
      bufferBytesMax, periodBytesMin, periodBytesMax := 0, 0, 0;
      periodsMin, periodsMax := 0, 0;
    }

    /** `aaudio_create_hw_info`. `rate` is the description's sample rate
        already converted to an integer and `rateBits` its ALSA rate bit;
        both conversions are outside this model. The info word and the format
        are written before the format is checked, so they change on failure
        too; everything else is written only on success. A stream advertises
        one fixed configuration: every minimum equals its maximum, and a
        period is one packet, so the buffer holds `periods` whole periods. */
    method Create(desc: Description, rate: U32, rateBits: U32, bufSize: U64) returns (status: int)
      requires GetAlsaFmtbit(desc) != 0 ==> desc.bytesPerPacket > 0
      modifies this
      ensures formats == GetAlsaFmtbit(desc)
      ensures Interleaved(info) <==> !desc.flags.nonInterleaved
      ensures info == BASE_INFO + (if desc.flags.nonInterleaved then 0 else INFO_INTERLEAVED)
      ensures status == -EINVAL <==> formats == 0
      ensures status == 0 <==> formats != 0
      ensures formats == 0 ==>
        && rates == old(rates) && rateMin == old(rateMin) && rateMax == old(rateMax)
        && channelsMin == old(channelsMin) && channelsMax == old(channelsMax)
        && bufferBytesMax == old(bufferBytesMax)
        && periodBytesMin == old(periodBytesMin) && periodBytesMax == old(periodBytesMax)
        && periodsMin == old(periodsMin) && periodsMax == old(periodsMax)
      ensures formats != 0 ==>
        && rates == rateBits && rateMin == rateMax == rate
        && channelsMin == channelsMax == desc.channelsPerFrame
        && bufferBytesMax == bufSize
        && periodBytesMin == periodBytesMax == desc.bytesPerPacket
        && periodsMin == periodsMax == Trunc32(bufSize / desc.bytesPerPacket)
        && (bufSize / desc.bytesPerPacket < TWO_32 ==>
              periodsMin * desc.bytesPerPacket <= bufSize < (periodsMin + 1) * desc.bytesPerPacket)
    {
      info := BASE_INFO;
      if !desc.flags.nonInterleaved {
        info := info + INFO_INTERLEAVED;
      }
      formats := GetAlsaFmtbit(desc);
      if formats == 0 {
        return -EINVAL;
      }
      Configure(rate, rateBits, desc.channelsPerFrame, bufSize, desc.bytesPerPacket);
      return 0;
    }

    /** The success path of `aaudio_create_hw_info`: one rate, one channel
        count and one period size, with as many periods as whole packets fit
        in the buffer. */
    method Configure(rate: U32, rateBits: U32, channels: U32, bufSize: U64, packetBytes: U32)
      requires packetBytes > 0
      modifies this
      ensures info == old(info) && formats == old(formats)
      ensures rates == rateBits && rateMin == rateMax == rate
      ensures channelsMin == channelsMax == channels
      ensures bufferBytesMax == bufSize
      ensures periodBytesMin == periodBytesMax == packetBytes
      ensures periodsMin == periodsMax == Trunc32(bufSize / packetBytes)
      ensures bufSize / packetBytes < TWO_32 ==>
        periodsMin * packetBytes <= bufSize < (periodsMin + 1) * packetBytes
    {
      rates := rateBits;
      rateMin, rateMax := rate, rate;
      channelsMin, channelsMax := channels, channels;
      bufferBytesMax := bufSize;
      periodBytesMin, periodBytesMax := packetBytes, packetBytes;
      periodsMin := Trunc32(bufSize / packetBytes);
      periodsMax := periodsMin;
      WholePeriods(bufSize, packetBytes);
    }
  }

  /** Integer division leaves less than one divisor over. */
  lemma WholePeriods(size: nat, unit: nat)
    requires unit > 0
    ensures (size / unit) * unit <= size < (size / unit + 1) * unit
  {
  }

  // ---------------------------------------------------------------------------
  // Trigger
  // ---------------------------------------------------------------------------

  // `SNDRV_PCM_TRIGGER_*` commands.
  const TRIGGER_STOP: int := 0
  const TRIGGER_START: int := 1

  /** `aaudio_pcm_trigger`: only substream 0 is controlled, and it accepts
      start and stop (which change nothing); other substreams accept every
      command. */
  function Trigger(number: nat, cmd: int): (r: int)
    ensures r == 0 || r == -EINVAL
    ensures r == -EINVAL <==> number == 0 && cmd != TRIGGER_START && cmd != TRIGGER_STOP
  {
    if number != 0 then 0
    else if cmd == TRIGGER_START || cmd == TRIGGER_STOP then 0
    else -EINVAL
  }

  // ---------------------------------------------------------------------------
  // Playback position
  // ---------------------------------------------------------------------------

  const NSEC_PER_SEC: nat := 1_000_000_000

  /** The length of the ring buffer in nanoseconds. */
  function BufferTimeLength(bufferSize: nat, rate: nat): nat
    requires rate > 0
  {
    NSEC_PER_SEC * bufferSize / rate
  }

  /** The frame the device has reached in the current pass over the buffer,
      from the nanoseconds since the last timestamp; before latency. */
  function RawPosition(elapsed: nat, bufferSize: nat, rate: nat): (r: nat)
    requires rate > 0 && BufferTimeLength(bufferSize, rate) > 0
    ensures r < bufferSize
  {
    var btl := BufferTimeLength(bufferSize, rate);
    var t := elapsed % btl;
    PositionBound(t, bufferSize, btl);
    t * bufferSize / btl
  }

  /** A fraction below one of the buffer is below the buffer size. */
  lemma PositionBound(t: nat, size: nat, len: nat)
    requires t < len && 0 < len
    ensures 0 <= t * size / len < size || (size == 0 && t * size / len == 0)
  {
    if size > 0 {
      assert t * size < len * size by {
        assert (len - t) * size > 0;
      }
      DivBelow(t * size, len, size);
    }
  }

  /** `x < k * n` implies `x / n < k`. */
  lemma DivBelow(x: nat, n: nat, k: nat)
    requires n > 0 && x < n * k
    ensures x / n < k
  {
  }

  /** `aaudio_pcm_pointer` as written: the latency of the stream and of the
      device is subtracted from the raw position, and a negative result is
      raised by a whole number of buffer time lengths (nanoseconds). */
  function PointerAsWritten(elapsed: nat, bufferSize: nat, rate: nat,
                            streamLatency: nat, deviceLatency: nat): (r: int)
    requires rate > 0 && BufferTimeLength(bufferSize, rate) > 0
    ensures var frames := RawPosition(elapsed, bufferSize, rate) - (streamLatency + deviceLatency);
      && (frames >= 0 ==> r == frames)
      && (frames < 0 ==> r == frames % BufferTimeLength(bufferSize, rate))
  {
    var btl := BufferTimeLength(bufferSize, rate);
    var frames := RawPosition(elapsed, bufferSize, rate) - (streamLatency + deviceLatency);
    if frames < 0 then
      CeilShift(frames, btl);
      frames + ((-frames - 1) / btl + 1) * btl
    else frames
  }

  /** The as-written pointer is never negative, but it is only below the
      buffer time length, which is not a frame count. */
  lemma PointerAsWrittenRange(elapsed: nat, bufferSize: nat, rate: nat,
                              streamLatency: nat, deviceLatency: nat)
    requires rate > 0 && BufferTimeLength(bufferSize, rate) > 0
    ensures var r := PointerAsWritten(elapsed, bufferSize, rate, streamLatency, deviceLatency);
      && 0 <= r
      && (RawPosition(elapsed, bufferSize, rate) < streamLatency + deviceLatency ==>
            r < BufferTimeLength(bufferSize, rate))
  {
  }

  /** With a 48-frame buffer at 48 kHz (a millisecond, so a buffer time
      length of 1000000 ns) and one frame of latency right at a timestamp,
      the as-written pointer is 999999: far past the end of the buffer. The
      corrected pointer wraps to the last frame, 47. */
  lemma PointerAsWrittenOverflows()
    ensures BufferTimeLength(48, 48000) == 1000000
    ensures PointerAsWritten(0, 48, 48000, 1, 0) == 999999
    ensures PointerAsWritten(0, 48, 48000, 1, 0) >= 48
    ensures Pointer(0, 48, 48000, 1, 0) == 47
  {
  }

  /** `aaudio_pcm_pointer`, corrected: a negative position is raised by a
      whole number of buffers, so the result is a frame of the buffer. */
  function Pointer(elapsed: nat, bufferSize: nat, rate: nat,
                   streamLatency: nat, deviceLatency: nat): (r: int)
    requires rate > 0 && BufferTimeLength(bufferSize, rate) > 0
    ensures 0 <= r < bufferSize
  {
    var frames := RawPosition(elapsed, bufferSize, rate) - (streamLatency + deviceLatency);
    if frames < 0 then
      CeilShift(frames, bufferSize);
      frames + ((-frames - 1) / bufferSize + 1) * bufferSize
    else frames
  }

  /** The corrected pointer is the latency-adjusted position reduced modulo
      the buffer: the frame the listener hears, wherever the latency puts it. */
  lemma PointerIsPosition(elapsed: nat, bufferSize: nat, rate: nat,
                          streamLatency: nat, deviceLatency: nat)
    requires rate > 0 && BufferTimeLength(bufferSize, rate) > 0
    ensures Pointer(elapsed, bufferSize, rate, streamLatency, deviceLatency)
      == (RawPosition(elapsed, bufferSize, rate) - (streamLatency + deviceLatency)) % bufferSize
  {
    var frames := RawPosition(elapsed, bufferSize, rate) - (streamLatency + deviceLatency);
    if frames < 0 {
      CeilShift(frames, bufferSize);
    } else {
      ModOfBelow(frames, bufferSize);
    }
  }

  /** Raising a negative `x` by the smallest multiple of `n` that makes it
      non-negative lands in `[0, n)` on the residue of `x`. */
  lemma CeilShift(x: int, n: nat)
    requires n > 0 && x < 0
    ensures var y := x + ((-x - 1) / n + 1) * n;
      0 <= y < n && y == x % n
  {
    var q := (-x - 1) / n;
    var y := x + (q + 1) * n;
    assert -x - 1 == q * n + (-x - 1) % n;
    assert y == n - 1 - (-x - 1) % n;
    ModUnique(x, n, y, q + 1);
  }

  /** A value in `[0, n)` that differs from `x` by a multiple of `n` is `x % n`. */
  lemma ModUnique(x: int, n: nat, y: int, k: int)
    requires n > 0 && 0 <= y < n && y == x + k * n
    ensures y == x % n
  {
    var m := x / n + k;
    assert x == (x / n) * n + x % n;
    assert y - x % n == m * n;
    if m >= 1 {
      MultipleAtLeast(m, n);
    } else if m <= -1 {
      MultipleAtLeast(-m, n);
    }
  }

  /** A positive multiple of `n` is at least `n`. */
  lemma MultipleAtLeast(m: int, n: int)
    requires m >= 1 && n >= 0
    ensures m * n >= n && -m * n <= -n
  {
    assert m * n == (m - 1) * n + n;
  }

  /** A value in `[0, n)` is its own residue. */
  lemma ModOfBelow(x: int, n: nat)
    requires n > 0 && 0 <= x < n
    ensures x % n == x
  {
    ModUnique(x, n, x, 0);
  }
}
