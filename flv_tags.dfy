// The body of one FLV tag, as flv_parser::parse_flv_tags decodes it once the
// framing has located it: a script-data tag is two AMF0 values, an audio tag
// an MP3 frame or an AAC packet, a video tag an AVC or HEVC packet. Decoding
// a body yields the events the parser hands to its callbacks, in order, the
// NAL length size it leaves behind, and whether it failed once those events
// were out. Reads the C++ code makes past the end of its buffer are
// undefined behaviour there and a failure here.

module FlvTags {
  import opened Bytes
  import opened Wrappers
  import opened AmfTypes
  import opened AmfDecode
  import opened AmfEncode
  import opened SampleTypes

  /** audio_special_config: the WAVEFORMATEX fields of an audio stream. */
  datatype AudioConfig = AudioConfig(
    formatTag: nat, channels: nat, samplesPerSecond: nat, bitsPerSample: nat,
    blockAlign: nat, size: nat, averageBytesPerSecond: nat)

  /** One call of a parser callback, with its arguments. */
  datatype Event =
    | ScriptTagEvent(name: Value, value: Value)
    | AudioConfigEvent(config: AudioConfig)
    | AvcConfigEvent(sps: seq<Byte>, pps: seq<Byte>)
    | HevcConfigEvent(vps: seq<Byte>, sps: seq<Byte>, pps: seq<Byte>)
    | AudioSampleEvent(audio: AudioSample)
    | VideoSampleEvent(video: VideoSample)

  /** Which of the six std::function callbacks are set. */
  datatype Callbacks = Callbacks(
    scriptTag: bool, audioConfig: bool, avcConfig: bool,
    hevcConfig: bool, audioSample: bool, videoSample: bool)

  /** The fields of the eleven-byte tag header the body decoding needs. */
  datatype TagHeader = TagHeader(
    tagType: Byte, dataOffset: nat, dataSize: nat, timestamp: nat, timestampExtended: Byte)

  /** The events of one tag, the NAL length size afterwards, and a late failure. */
  datatype TagOutcome = TagOutcome(events: seq<Event>, lengthSize: nat, failed: bool)

  /** The framing only hands over a tag whose body and PreviousTagSize lie in the buffer. */
  predicate InBuffer(data: seq<Byte>, h: TagHeader)
  {
    h.dataOffset + h.dataSize + 4 < |data|
  }

  /** length_size_minus_one holds 0 (no decoder configuration seen yet), 1, 2 or 4. */
  predicate ValidLengthSize(n: nat)
  {
    n == 0 || n == 1 || n == 2 || n == 4
  }

  function Failure(lengthSize: nat): TagOutcome
  {
    TagOutcome([], lengthSize, true)
  }

  /**
   * lengthSizeMinusOne of a decoder configuration record: the NAL length
   * field is one byte longer than the flag; 2 (three bytes) is refused.
   */
  function LengthSizeFromFlag(flag: nat): (r: Option<nat>)
    requires flag < 4
    ensures r.Some? <==> flag != 2
    ensures r.Some? ==> r.value == flag + 1 && ValidLengthSize(r.value) && r.value > 0
  {
    if flag == 0 then Some(1)
    else if flag == 1 then Some(2)
    else if flag == 3 then Some(4)
    else None
  }

  /**
   * The 100 ns time of a tag: Timestamp holds the low 24 bits of the
   * millisecond count and TimestampExtended the high eight.
   */
  function SampleTime(timestamp: nat, extended: Byte): (r: nat)
    ensures r % 10000 == 0
    ensures timestamp < 0x100_0000 ==> (r / 10000) % 0x100_0000 == timestamp && r / 10000 / 0x100_0000 == extended
  {
    var ms := timestamp + extended * 0x100_0000;
    DivModUnique(ms * 10000, ms, 0, 10000);
    assert timestamp < 0x100_0000 ==> ms % 0x100_0000 == timestamp && ms / 0x100_0000 == extended as nat by {
      if timestamp < 0x100_0000 {
        DivModUnique(ms, extended as nat, timestamp, 0x100_0000);
      }
    }
    ms * 10000
  }

  lemma SampleTimeBytes(data: seq<Byte>, i: nat)
    requires i + 4 <= |data|
    ensures SampleTime(ToUint24Be(data, i), data[i + 3]) == 10000 * BigEndian([data[i + 3]] + data[i..i + 3])
  {
    Uint24BeValue(data, i);
    BigEndianPrepend(data[i + 3], data[i..i + 3]);
    assert Pow256(3) == 0x100_0000;
  }

  // ---------------------------------------------------------------------
  // Composition time

  /** CompositionTime is an SI24: values from 0x800000 up are negative. */
  function SignedCompositionTime(ct: nat): (r: int)
    requires ct < 0x100_0000
    ensures -0x80_0000 <= r < 0x80_0000
    ensures (r - ct) % 0x100_0000 == 0
  {
    if ct >= 0x80_0000 then ct - 0x100_0000 else ct
  }

  /** The presentation time of a video sample, composition offset added to its decoding time. */
  function PresentationTime(dts: int, ct: nat): int
    requires ct < 0x100_0000
  {
    dts + SignedCompositionTime(ct) * 10000
  }

  /** Every SI24 offset in stream order reaches the presentation time it stands for. */
  lemma PresentationTimeSigned(dts: int, c: int)
    requires -0x80_0000 <= c < 0x80_0000
    ensures PresentationTime(dts, c % 0x100_0000) == dts + c * 10000
  {
    var ct := c % 0x100_0000;
    var r := SignedCompositionTime(ct);
    assert (r - c) % 0x100_0000 == 0;
    assert -0x100_0000 < r - c < 0x100_0000;
  }

  /** The code as written: the field read unsigned, the product taken modulo 2^32. */
  function PresentationTimeAsWritten(dts: int, ct: nat): (r: int)
    ensures dts <= r < dts + 0x1_0000_0000
    ensures ct * 10000 < 0x1_0000_0000 ==> r == dts + ct * 10000
  {
    dts + (ct * 10000) % 0x1_0000_0000
  }

  /**
   * The two readings agree exactly on the offsets below 429497 ms, where
   * the product still fits in 32 bits and the SI24 sign bit is clear.
   */
  lemma PresentationTimeAsWrittenAgrees(dts: int, ct: nat)
    requires ct < 0x100_0000
    ensures PresentationTimeAsWritten(dts, ct) == PresentationTime(dts, ct) <==> ct < 429497
  {
    if ct < 429497 {
      assert ct * 10000 < 0x1_0000_0000;
    } else if ct < 0x80_0000 {
      var w := ct * 10000;
      assert 0x1_0000_0000 <= w;
      assert w % 0x1_0000_0000 < 0x1_0000_0000;
    } else {
      assert SignedCompositionTime(ct) < 0;
      assert (ct * 10000) % 0x1_0000_0000 >= 0;
    }
  }

  /** An offset of -1 ms (0xffffff) moves the sample about 26.8 s later instead of 1 ms earlier. */
  lemma PresentationTimeAsWrittenNegative(dts: int)
    ensures PresentationTimeAsWritten(dts, 0xff_ffff) == dts + 268425456
    ensures PresentationTime(dts, 0xff_ffff) == dts - 10000
  {
  }

  // ---------------------------------------------------------------------
  // Audio configuration

  /**
   * An audio configuration as WAVEFORMATEX defines it: a block holds one
   * sample of every channel, and the byte rate is one block per sample time.
   */
  /** nBlockAlign: the bytes of one sample frame over all channels. */
  function BlockAlign(channels: nat, bits: nat): (r: nat)
    requires channels > 0 && (bits == 8 || bits == 16)
    ensures r * 8 == channels * bits && r >= channels
  {
    DivModUnique(channels * bits, channels * (bits / 8), 0, 8);
    channels * bits / 8
  }

  function MakeAudioConfig(formatTag: nat, channels: nat, rate: nat, bits: nat): (c: AudioConfig)
    requires channels > 0 && (bits == 8 || bits == 16)
    ensures c.formatTag == formatTag && c.channels == channels && c.size == 0
    ensures c.samplesPerSecond == rate && c.bitsPerSample == bits
    ensures c.blockAlign * 8 == channels * bits
    ensures c.averageBytesPerSecond == rate * c.blockAlign
  {
    var blockAlign := BlockAlign(channels, bits);
    DivModUnique(rate * channels * bits, rate * blockAlign, 0, 8);
    AudioConfig(formatTag, channels, rate, bits, blockAlign, 0, rate * channels * bits / 8)
  }

  /** The code as written divides by block_align where it means the eight bits of a byte. */
  function MakeAudioConfigAsWritten(formatTag: nat, channels: nat, rate: nat, bits: nat): (c: AudioConfig)
    requires channels > 0 && (bits == 8 || bits == 16)
    ensures c.formatTag == formatTag && c.channels == channels && c.size == 0
    ensures c.samplesPerSecond == rate && c.bitsPerSample == bits
    ensures c.blockAlign * 8 == channels * bits
  {
    var blockAlign := BlockAlign(channels, bits);
    var sampleBits: nat := channels * bits;
    var total: nat := rate * sampleBits;
    AudioConfig(formatTag, channels, rate, bits, blockAlign, 0, total / blockAlign)
  }

  /** As written the byte rate is always eight times the sample rate, whatever the block size. */
  lemma AverageBytesAsWritten(formatTag: nat, channels: nat, rate: nat, bits: nat)
    requires channels > 0 && (bits == 8 || bits == 16)
    ensures MakeAudioConfigAsWritten(formatTag, channels, rate, bits).averageBytesPerSecond == 8 * rate
  {
    var blockAlign := BlockAlign(channels, bits);
    var total := rate * (channels * bits);
    assert total == rate * (8 * blockAlign);
    assert total == (8 * rate) * blockAlign;
    DivModUnique(total, 8 * rate, 0, blockAlign);
  }

  /** 44.1 kHz 16-bit stereo: 352800 bytes per second as written, 176400 intended. */
  lemma AverageBytesAsWrittenExample()
    ensures MakeAudioConfigAsWritten(0xff, 2, 44100, 16).averageBytesPerSecond == 352800
    ensures MakeAudioConfig(0xff, 2, 44100, 16).averageBytesPerSecond == 176400
  {
  }

  /** SoundSize: bit 1 of the audio flags selects 16-bit samples. */
  function SoundSize(flags: Byte): (r: nat)
    ensures r == 8 || r == 16
  {
    if (flags / 2) % 2 == 1 then 16 else 8
  }

  /** The MPEG audio sample rates by version and index (ISO/IEC 11172-3, 13818-3 and MPEG 2.5). */
  function Mp3StandardRate(version: nat, index: nat): nat
    requires version != 1 && version < 4 && index < 3
  {
    if version == 3 then [44100, 48000, 32000][index]
    else if version == 2 then [22050, 24000, 16000][index]
    else [11025, 12000, 8000][index]
  }

  /**
   * The MP3 frame header after the tag's flag byte at `o`: version bits
   * 01 and sampling index 11 are reserved; MPEG 2 doubles and MPEG 1
   * quadruples the MPEG 2.5 rate; channel mode 11 is mono.
   */
  function Mp3Config(data: seq<Byte>, o: nat, bits: nat): (r: Option<AudioConfig>)
    requires o + 3 < |data| && (bits == 8 || bits == 16)
    ensures r.Some? <==> (data[o + 1] / 8) % 4 != 1 && (data[o + 2] / 4) % 4 != 3
    ensures r.Some? ==> r.value.samplesPerSecond == Mp3StandardRate((data[o + 1] / 8) % 4, (data[o + 2] / 4) % 4)
    ensures r.Some? ==> r.value.formatTag == 0x55 && r.value.channels == (if data[o + 3] / 64 == 3 then 1 else 2)
    ensures r.Some? ==> r.value.bitsPerSample == bits && r.value.averageBytesPerSecond == 8 * r.value.samplesPerSecond
  {
    var version := (data[o + 1] / 8) % 4;
    var index := (data[o + 2] / 4) % 4;
    if version == 1 then None
    else if index == 3 then None
    else
      var base := if index == 0 then 11025 else if index == 1 then 12000 else 8000;
      var rate := if version == 2 then base * 2 else if version == 3 then base * 4 else base;
      var channels := if data[o + 3] / 64 == 3 then 1 else 2;
      AverageBytesAsWritten(0x55, channels, rate, bits);
      Some(MakeAudioConfigAsWritten(0x55, channels, rate, bits))
  }

  /** samplingFrequencyIndex of ISO/IEC 14496-3 (table 1.18); 13 to 15 are not rates. */
  function AacSamplingFrequency(index: nat): (r: Option<nat>)
    ensures r.Some? <==> index < 13
  {
    if index < 13 then
      Some([96000, 88200, 64000, 48000, 44100, 32000, 24000, 22050, 16000, 12000, 11025, 8000, 7350][index])
    else None
  }

  /** The standard table lists its rates from the highest down. */
  lemma AacSamplingFrequencyDecreasing(i: nat, j: nat)
    requires i < j < 13
    ensures AacSamplingFrequency(j).value < AacSamplingFrequency(i).value
  {
  }

  /** The switch as written: 0xa is given 8000 and 0xb is missing. */
  function AacSamplingFrequencyAsWritten(index: nat): (r: Option<nat>)
    ensures r.Some? ==> index < 13
  {
    if index == 0x0 then Some(96000)
    else if index == 0x1 then Some(88200)
    else if index == 0x2 then Some(64000)
    else if index == 0x3 then Some(48000)
    else if index == 0x4 then Some(44100)
    else if index == 0x5 then Some(32000)
    else if index == 0x6 then Some(24000)
    else if index == 0x7 then Some(22050)
    else if index == 0x8 then Some(16000)
    else if index == 0x9 then Some(12000)
    else if index == 0xa then Some(8000)
    else if index == 0xc then Some(7350)
    else None
  }

  /** Every other index of the switch as written follows the standard table. */
  lemma AacSamplingFrequencyAsWrittenAgrees(index: nat)
    requires index != 0xa && index != 0xb
    ensures AacSamplingFrequencyAsWritten(index) == AacSamplingFrequency(index)
  {
  }

  /** An 11025 Hz stream is announced at 8000 Hz, and an 8000 Hz stream is refused. */
  lemma AacSamplingFrequencyAsWrittenDiffers()
    ensures AacSamplingFrequencyAsWritten(0xa) == Some(8000) != AacSamplingFrequency(0xa)
    ensures AacSamplingFrequencyAsWritten(0xb) == None && AacSamplingFrequency(0xb) == Some(8000)
  {
  }

  /**
   * AudioSpecificConfig: four bits of sampling index straddling the two
   * bytes at `o`, then four bits of channel configuration; 0 and 8 or more
   * are refused, 7 stands for eight channels.
   */
  function AacConfig(data: seq<Byte>, o: nat, bits: nat): (r: Option<AudioConfig>)
    requires o + 1 < |data| && (bits == 8 || bits == 16)
    ensures var index := (data[o] % 8) * 2 + data[o + 1] / 128;
            r.Some? <==> AacSamplingFrequencyAsWritten(index).Some? && 1 <= (data[o + 1] / 8) % 16 <= 7
    ensures r.Some? ==> r.value.samplesPerSecond == AacSamplingFrequencyAsWritten((data[o] % 8) * 2 + data[o + 1] / 128).value
    ensures r.Some? ==> r.value.formatTag == 0xff && 1 <= r.value.channels <= 8 && r.value.channels != 7
    ensures r.Some? ==> r.value.channels == (if (data[o + 1] / 8) % 16 == 7 then 8 else (data[o + 1] / 8) % 16)
    ensures r.Some? ==> r.value.bitsPerSample == bits && r.value.averageBytesPerSecond == 8 * r.value.samplesPerSecond
  {
    var index := (data[o] % 8) * 2 + data[o + 1] / 128;
    var channelConfiguration := (data[o + 1] / 8) % 16;
    match AacSamplingFrequencyAsWritten(index)
    case None => None
    case Some(rate) =>
      if channelConfiguration == 0 || channelConfiguration > 7 then None
      else
        var channels := if channelConfiguration == 7 then 8 else channelConfiguration;
        AverageBytesAsWritten(0xff, channels, rate, bits);
        Some(MakeAudioConfigAsWritten(0xff, channels, rate, bits))
  }

  // ---------------------------------------------------------------------
  // Tag bodies

  /** Both AMF0 values of a script-data body decode. */
  predicate ScriptDecodes(body: seq<Byte>)
  {
    Decode(body, 0).Decoded? && Decode(body, Decode(body, 0).next).Decoded?
  }

  /** Script data: the name and the value, two AMF0 values in the tag body. */
  function ScriptTag(data: seq<Byte>, h: TagHeader, lengthSize: nat, cb: Callbacks): (r: TagOutcome)
    requires InBuffer(data, h)
    ensures r.lengthSize == lengthSize
    ensures r.failed <==> !ScriptDecodes(data[h.dataOffset..h.dataOffset + h.dataSize])
    ensures r.failed ==> r.events == []
    ensures !r.failed ==> |r.events| == (if cb.scriptTag then 1 else 0)
    ensures var body := data[h.dataOffset..h.dataOffset + h.dataSize];
      !r.failed && cb.scriptTag ==>
        ScriptDecodes(body) &&
        r.events == [ScriptTagEvent(Decode(body, 0).value, Decode(body, Decode(body, 0).next).value)]
  {
    var body := data[h.dataOffset..h.dataOffset + h.dataSize];
    match Decode(body, 0)
    case DecodeError => Failure(lengthSize)
    case Decoded(name, next) =>
      match Decode(body, next)
      case DecodeError => Failure(lengthSize)
      case Decoded(value, _) =>
        TagOutcome(if cb.scriptTag then [ScriptTagEvent(name, value)] else [], lengthSize, false)
  }

  /** A body holding the AMF0 encodings of a name and a value reports exactly that pair. */
  lemma ScriptTagRoundTrip(data: seq<Byte>, h: TagHeader, lengthSize: nat, cb: Callbacks, name: Value, value: Value)
    requires InBuffer(data, h) && Encodable(name) && Encodable(value)
    requires var body := data[h.dataOffset..h.dataOffset + h.dataSize];
      At(body, 0, Encode(name)) && At(body, |Encode(name)|, Encode(value))
    ensures ScriptTag(data, h, lengthSize, cb)
            == TagOutcome(if cb.scriptTag then [ScriptTagEvent(name, value)] else [], lengthSize, false)
  {
    var body := data[h.dataOffset..h.dataOffset + h.dataSize];
    DecodeEncode(name, body, 0);
    DecodeEncode(value, body, |Encode(name)|);
  }

  /**
   * Audio data: SoundFormat 2 is an MP3 frame whose header gives the
   * configuration, SoundFormat 10 an AAC sequence header (packet type 0)
   * or raw frame (packet type 1); every other format is an error.
   */
  function AudioTag(data: seq<Byte>, h: TagHeader, lengthSize: nat, cb: Callbacks): (r: TagOutcome)
    requires InBuffer(data, h)
    ensures r.lengthSize == lengthSize
    ensures |r.events| <= 2
    ensures data[h.dataOffset] / 16 != 2 && data[h.dataOffset] / 16 != 10 ==> r == Failure(lengthSize)
    ensures var o := h.dataOffset; var bits := SoundSize(data[o]);
      data[o] / 16 == 2 ==>
        && (r.failed <==> (h.dataSize - 1) % 0x1_0000_0000 < 4 || (cb.audioConfig && Mp3Config(data, o + 1, bits).None?)
                          || (cb.audioSample && h.dataSize == 0))
        && (!r.failed ==> |r.events| == (if cb.audioConfig then 1 else 0) + (if cb.audioSample then 1 else 0))
    ensures var o := h.dataOffset; var bits := SoundSize(data[o]);
      data[o] / 16 == 2 && !r.failed && cb.audioConfig ==>
        Mp3Config(data, o + 1, bits).Some? && r.events[0] == AudioConfigEvent(Mp3Config(data, o + 1, bits).value)
    ensures var o := h.dataOffset;
      data[o] / 16 == 2 && !r.failed && cb.audioSample ==>
        0 < h.dataSize && r.events != [] &&
        r.events[|r.events| - 1] == AudioSampleEvent(AudioSample(SampleTime(h.timestamp, h.timestampExtended), data[o + 1..o + h.dataSize]))
    ensures var o := h.dataOffset; var bits := SoundSize(data[o]);
      data[o] / 16 == 10 && data[o + 1] == 0 ==>
        && (r.failed <==> AacConfig(data, o + 2, bits).None?)
        && (!r.failed ==> r.events == if cb.audioConfig then [AudioConfigEvent(AacConfig(data, o + 2, bits).value)] else [])
    ensures var o := h.dataOffset;
      data[o] / 16 == 10 && data[o + 1] == 1 ==>
        && (r.failed <==> h.dataSize == 0 || (cb.audioSample && h.dataSize == 1))
        && (!r.failed ==>
              r.events == if cb.audioSample
                then [AudioSampleEvent(AudioSample(SampleTime(h.timestamp, h.timestampExtended), data[o + 2..o + h.dataSize]))]
                else [])
    ensures data[h.dataOffset] / 16 == 10 && data[h.dataOffset + 1] > 1 ==> r == Failure(lengthSize)
  {
    var flags := data[h.dataOffset];
    var format := flags / 16;
    var bits := SoundSize(flags);
    var time := SampleTime(h.timestamp, h.timestampExtended);
    var end := h.dataOffset + h.dataSize;
    if format == 2 then
      // the remaining size is unsigned: an empty body wraps round and passes
      if (h.dataSize - 1) % 0x1_0000_0000 < 4 then Failure(lengthSize)
      else if cb.audioConfig && Mp3Config(data, h.dataOffset + 1, bits).None? then Failure(lengthSize)
      else
        var configEvents := if cb.audioConfig then [AudioConfigEvent(Mp3Config(data, h.dataOffset + 1, bits).value)] else [];
        if !cb.audioSample then TagOutcome(configEvents, lengthSize, false)
        else if h.dataSize == 0 then TagOutcome(configEvents, lengthSize, true)
        else
          var sample := AudioSample(time, data[h.dataOffset + 1..end]);
          TagOutcome(configEvents + [AudioSampleEvent(sample)], lengthSize, false)
    else if format == 10 then
      var packetType := data[h.dataOffset + 1];
      if packetType == 0 then
        match AacConfig(data, h.dataOffset + 2, bits)
        case None => Failure(lengthSize)
        case Some(config) =>
          TagOutcome(if cb.audioConfig then [AudioConfigEvent(config)] else [], lengthSize, false)
      else if packetType == 1 then
        if h.dataSize == 0 then Failure(lengthSize)
        else if !cb.audioSample then TagOutcome([], lengthSize, false)
        else if h.dataSize == 1 then Failure(lengthSize)
        else
          var sample := AudioSample(time, data[h.dataOffset + 2..end]);
          TagOutcome([AudioSampleEvent(sample)], lengthSize, false)
      else Failure(lengthSize)
    else Failure(lengthSize)
  }

  // ---------------------------------------------------------------------
  // Video: NAL units

  /** A NAL length field of `n` bytes at `p`, most significant byte first. */
  function ReadLength(data: seq<Byte>, p: nat, n: nat): nat
    requires (n == 1 || n == 2 || n == 4) && p + n <= |data|
  {
    if n == 1 then data[p]
    else if n == 2 then ToUint16Be(data, p)
    else ToUint32Be(data, p)
  }

  lemma ReadLengthValue(data: seq<Byte>, p: nat, n: nat)
    requires (n == 1 || n == 2 || n == 4) && p + n <= |data|
    ensures ReadLength(data, p, n) == BigEndian(data[p..p + n])
  {
    if n == 1 {
      assert data[p..p + 1][..0] == [];
    } else if n == 2 {
      Uint16BeValue(data, p);
    } else {
      Uint32BeValue(data, p);
    }
  }

  function Prepend(prefix: seq<Byte>, r: Option<seq<Byte>>): Option<seq<Byte>>
  {
    if r.Some? then Some(prefix + r.value) else None
  }

  /**
   * The NAL units between `p` and `end`, each behind an `n`-byte length,
   * rewritten with the start code 00 00 01 in front of each. A length field
   * cut short, a unit running past `end` or an empty unit is an error.
   */
  function NalUnits(data: seq<Byte>, p: nat, end: nat, n: nat): (r: Option<seq<Byte>>)
    requires (n == 1 || n == 2 || n == 4) && end <= |data|
    ensures r.Some? && p < end ==> 4 <= |r.value| && r.value[..3] == [0, 0, 1]
    ensures r.Some? && p <= end ==> |r.value| <= 2 * (end - p)
    ensures r.Some? && p < end && n == 4 ==> |r.value| < end - p
    decreases end - p
  {
    if end <= p then Some([])
    else if end - p < n then None
    else
      var q := p + n;
      var length := ReadLength(data, p, n);
      if length > end - q || length == 0 then None
      else Prepend([0, 0, 1] + data[q..q + length], NalUnits(data, q + length, end, n))
  }

  /** NAL units in Annex B byte-stream form (ISO/IEC 14496-10): each behind a start code. */
  function AnnexB(units: seq<seq<Byte>>): seq<Byte>
  {
    if |units| == 0 then [] else [0, 0, 1] + units[0] + AnnexB(units[1..])
  }

  /** NAL units as an AVC or HEVC sample stores them: each behind its `n`-byte length. */
  function LengthPrefixed(units: seq<seq<Byte>>, n: nat): seq<Byte>
  {
    if |units| == 0 then [] else ToBigEndian(|units[0]|, n) + units[0] + LengthPrefixed(units[1..], n)
  }

  predicate Storable(units: seq<seq<Byte>>, n: nat)
  {
    forall k :: 0 <= k < |units| ==> 0 < |units[k]| < Pow256(n)
  }

  /** Each unit grows by three bytes of start code. */
  lemma {:induction false} AnnexBLength(units: seq<seq<Byte>>, total: nat)
    requires total == |LengthPrefixed(units, 0)|
    ensures |AnnexB(units)| == total + 3 * |units|
  {
    if |units| > 0 {
      AnnexBLength(units[1..], |LengthPrefixed(units[1..], 0)|);
    }
  }

  /** A slice that spells `a + b` spells `a` and then `b`. */
  lemma SliceSplit(data: seq<Byte>, p: nat, a: seq<Byte>, b: seq<Byte>)
    requires p + |a| + |b| <= |data| && data[p..p + |a| + |b|] == a + b
    ensures data[p..p + |a|] == a && data[p + |a|..p + |a| + |b|] == b
  {
    assert data[p..p + |a|] == data[p..p + |a| + |b|][..|a|];
    assert data[p + |a|..p + |a| + |b|] == data[p..p + |a| + |b|][|a|..];
  }

  /** A slice that spells `a + (b + c)` spells `a`, then `b`, then `c`. */
  lemma SliceThree(data: seq<Byte>, p: nat, end: nat, a: seq<Byte>, b: seq<Byte>, c: seq<Byte>)
    requires p <= end <= |data| && data[p..end] == a + (b + c)
    ensures end == p + |a| + |b| + |c|
    ensures data[p..p + |a|] == a && data[p + |a|..p + |a| + |b|] == b && data[p + |a| + |b|..end] == c
  {
    SliceSplit(data, p, a, b + c);
    SliceSplit(data, p + |a|, b, c);
  }

  /** Rewriting the length-prefixed units of a sample yields their Annex B form. */
  lemma {:induction false} NalUnitsRoundTrip(units: seq<seq<Byte>>, n: nat, data: seq<Byte>, p: nat, end: nat)
    requires (n == 1 || n == 2 || n == 4) && Storable(units, n)
    requires p <= end <= |data| && data[p..end] == LengthPrefixed(units, n)
    ensures NalUnits(data, p, end, n) == Some(AnnexB(units))
    decreases |units|
  {
    if |units| > 0 {
      var next := NalUnitsHead(units, n, data, p, end);
      assert Storable(units[1..], n);
      NalUnitsRoundTrip(units[1..], n, data, next, end);
    }
  }

  lemma NalUnitsHead(units: seq<seq<Byte>>, n: nat, data: seq<Byte>, p: nat, end: nat) returns (next: nat)
    requires (n == 1 || n == 2 || n == 4) && Storable(units, n) && |units| > 0
    requires p <= end <= |data| && data[p..end] == LengthPrefixed(units, n)
    ensures next == p + n + |units[0]| <= end
    ensures data[next..end] == LengthPrefixed(units[1..], n)
    ensures NalUnits(data, p, end, n) == Prepend([0, 0, 1] + units[0], NalUnits(data, next, end, n))
  {
    var u := units[0];
    assert 0 < |u|;
    LengthPrefixedHead(units, n, data, p, end);
    next := p + n + |u|;
    NalUnitsCons(data, p, end, n, u);
  }

  /** The first unit of length-prefixed units: its length field, its bytes, and the units after it. */
  lemma LengthPrefixedHead(units: seq<seq<Byte>>, n: nat, data: seq<Byte>, p: nat, end: nat)
    requires (n == 1 || n == 2 || n == 4) && Storable(units, n) && |units| > 0
    requires p <= end <= |data| && data[p..end] == LengthPrefixed(units, n)
    ensures p + n + |units[0]| <= end
    ensures ReadLength(data, p, n) == |units[0]|
    ensures data[p + n..p + n + |units[0]|] == units[0]
    ensures data[p + n + |units[0]|..end] == LengthPrefixed(units[1..], n)
  {
    var u := units[0];
    var field := ToBigEndian(|u|, n);
    assert LengthPrefixed(units, n) == field + (u + LengthPrefixed(units[1..], n));
    SliceThree(data, p, end, field, u, LengthPrefixed(units[1..], n));
    BigEndianRoundTrip(|u|, n);
    ReadLengthValue(data, p, n);
  }

  /** A well-formed unit at `p` comes out first, behind its start code. */
  lemma NalUnitsCons(data: seq<Byte>, p: nat, end: nat, n: nat, u: seq<Byte>)
    requires (n == 1 || n == 2 || n == 4) && end <= |data|
    requires p + n + |u| <= end && |u| > 0
    requires ReadLength(data, p, n) == |u| && data[p + n..p + n + |u|] == u
    ensures NalUnits(data, p, end, n) == Prepend([0, 0, 1] + u, NalUnits(data, p + n + |u|, end, n))
  {
  }

  /** The rewriting loop of the video sample path, appending to one buffer. */
  method ReadNalUnits(data: seq<Byte>, start: nat, end: nat, n: nat) returns (r: Option<seq<Byte>>)
    requires (n == 1 || n == 2 || n == 4) && end <= |data|
    ensures r == NalUnits(data, start, end, n)
  {
    var payload: seq<Byte> := [];
    var p: nat := start;
    PrependNothing(NalUnits(data, p, end, n));
    while end > p
      invariant Prepend(payload, NalUnits(data, p, end, n)) == NalUnits(data, start, end, n)
      decreases end - p
    {
      var unit, next := ReadNalUnit(data, p, end, n);
      if unit.None? {
        return None;
      }
      PrependAssociative(payload, unit.value, NalUnits(data, next, end, n));
      payload := payload + unit.value;
      p := next;
    }
    NalUnitsEnds(data, p, end, n);
    assert payload + [] == payload;
    return Some(payload);
  }

  /**
   * One turn of the conversion loop: the length field at `p`, then the unit
   * behind a start code, or None where the loop gives up.
   */
  method ReadNalUnit(data: seq<Byte>, p: nat, end: nat, n: nat) returns (unit: Option<seq<Byte>>, next: nat)
    requires (n == 1 || n == 2 || n == 4) && p < end <= |data|
    ensures unit.None? ==> NalUnits(data, p, end, n) == None
    ensures unit.Some? ==> p < next <= end && NalUnits(data, p, end, n) == Prepend(unit.value, NalUnits(data, next, end, n))
  {
    if end - p < n {
      NalUnitsEnds(data, p, end, n);
      return None, p;
    }
    var length := ReadLengthField(data, p, n);
    NalUnitsStep(data, p, end, n, length);
    var q := p + n;
    if length > end - q || length == 0 {
      return None, p;
    }
    return Some([0, 0, 1] + data[q..q + length]), q + length;
  }

  /** Where the units end: nothing left is no unit, a partial length field is a failure. */
  lemma NalUnitsEnds(data: seq<Byte>, p: nat, end: nat, n: nat)
    requires (n == 1 || n == 2 || n == 4) && end <= |data|
    ensures end <= p ==> NalUnits(data, p, end, n) == Some([])
    ensures p < end && end - p < n ==> NalUnits(data, p, end, n) == None
  {
  }

  /** The switch on the length size that reads one NAL length field. */
  method ReadLengthField(data: seq<Byte>, p: nat, n: nat) returns (length: nat)
    requires (n == 1 || n == 2 || n == 4) && p + n <= |data|
    ensures length == ReadLength(data, p, n)
  {
    if n == 1 {
      length := data[p];
    } else if n == 2 {
      length := ToUint16Be(data, p);
    } else {
      length := ToUint32Be(data, p);
    }
  }

  /** One turn of the loop: the unit whose length field at `p` reads `length`. */
  lemma NalUnitsStep(data: seq<Byte>, p: nat, end: nat, n: nat, length: nat)
    requires (n == 1 || n == 2 || n == 4) && end <= |data|
    requires p + n <= end && length == ReadLength(data, p, n)
    ensures NalUnits(data, p, end, n) ==
      if length > end - (p + n) || length == 0 then None
      else Prepend([0, 0, 1] + data[p + n..p + n + length], NalUnits(data, p + n + length, end, n))
  {
  }

  lemma PrependNothing(r: Option<seq<Byte>>)
    ensures Prepend([], r) == r
  {
    if r.Some? {
      assert [] + r.value == r.value;
    }
  }

  lemma PrependAssociative(a: seq<Byte>, b: seq<Byte>, r: Option<seq<Byte>>)
    ensures Prepend(a, Prepend(b, r)) == Prepend(a + b, r)
  {
    if r.Some? {
      assert a + (b + r.value) == (a + b) + r.value;
    }
  }

  // ---------------------------------------------------------------------
  // Video: decoder configuration records

  /**
   * `count` parameter sets from `p`, each a 16-bit length and that many
   * bytes, concatenated, and the position after the last. The code checks
   * no bound here: a read past the buffer is a failure.
   */
  function ParameterSets(data: seq<Byte>, p: nat, count: nat): (r: Option<(seq<Byte>, nat)>)
    ensures r.Some? ==> p <= r.value.1
    decreases count
  {
    if count == 0 then Some(([], p))
    else if p + 2 > |data| then None
    else
      var length := ToUint16Be(data, p);
      if p + 2 + length > |data| then None
      else
        match ParameterSets(data, p + 2 + length, count - 1)
        case None => None
        case Some((rest, q)) => Some((data[p + 2..p + 2 + length] + rest, q))
  }

  /** Parameter sets as a record stores them: a 16-bit length before each. */
  function ParameterSetList(sets: seq<seq<Byte>>): seq<Byte>
  {
    if |sets| == 0 then [] else ToBigEndian(|sets[0]|, 2) + sets[0] + ParameterSetList(sets[1..])
  }

  function Flatten(sets: seq<seq<Byte>>): seq<Byte>
  {
    if |sets| == 0 then [] else sets[0] + Flatten(sets[1..])
  }

  /** Every set fits the 16-bit length field in front of it. */
  predicate ShortSets(sets: seq<seq<Byte>>)
  {
    forall k :: 0 <= k < |sets| ==> |sets[k]| < 0x1_0000
  }

  /** Reading back a stored list of parameter sets yields them, back to back. */
  lemma {:induction false} ParameterSetsRoundTrip(sets: seq<seq<Byte>>, data: seq<Byte>, p: nat)
    requires ShortSets(sets)
    requires p + |ParameterSetList(sets)| <= |data|
    requires data[p..p + |ParameterSetList(sets)|] == ParameterSetList(sets)
    ensures var r := ParameterSets(data, p, |sets|);
      r.Some? && r.value.0 == Flatten(sets) && r.value.1 == p + |ParameterSetList(sets)|
    decreases |sets|
  {
    if |sets| > 0 {
      ParameterSetListHead(sets, data, p);
      ShortSetsTail(sets);
      ParameterSetsRoundTrip(sets[1..], data, p + 2 + |sets[0]|);
      ParameterSetsFirst(sets, data, p);
    }
  }

  /** The first set read, followed by what the rest of the list reads back as. */
  lemma ParameterSetsFirst(sets: seq<seq<Byte>>, data: seq<Byte>, p: nat)
    requires |sets| > 0 && p + 2 + |sets[0]| <= |data|
    requires ToUint16Be(data, p) == |sets[0]| && data[p + 2..p + 2 + |sets[0]|] == sets[0]
    requires ParameterSets(data, p + 2 + |sets[0]|, |sets| - 1)
             == Some((Flatten(sets[1..]), p + 2 + |sets[0]| + |ParameterSetList(sets[1..])|))
    ensures ParameterSets(data, p, |sets|)
            == Some((Flatten(sets), p + 2 + |sets[0]| + |ParameterSetList(sets[1..])|))
  {
    ParameterSetsCons(data, p, |sets|, sets[0]);
    FlattenCons(sets);
  }

  lemma ShortSetsTail(sets: seq<seq<Byte>>)
    requires |sets| > 0 && ShortSets(sets)
    ensures |sets[0]| < 0x1_0000 && ShortSets(sets[1..])
  {
    forall k | 0 <= k < |sets| - 1
      ensures |sets[1..][k]| < 0x1_0000
    {
      assert sets[1..][k] == sets[k + 1];
    }
  }

  lemma FlattenCons(sets: seq<seq<Byte>>)
    requires |sets| > 0
    ensures Flatten(sets) == sets[0] + Flatten(sets[1..])
  {
  }

  /** The first set of a stored list: its length field, its bytes, and the list after it. */
  lemma ParameterSetListHead(sets: seq<seq<Byte>>, data: seq<Byte>, p: nat)
    requires |sets| > 0 && |sets[0]| < 0x1_0000
    requires p + |ParameterSetList(sets)| <= |data|
    requires data[p..p + |ParameterSetList(sets)|] == ParameterSetList(sets)
    ensures p + |ParameterSetList(sets)| == p + 2 + |sets[0]| + |ParameterSetList(sets[1..])|
    ensures ToUint16Be(data, p) == |sets[0]| && data[p + 2..p + 2 + |sets[0]|] == sets[0]
    ensures data[p + 2 + |sets[0]|..p + |ParameterSetList(sets)|] == ParameterSetList(sets[1..])
  {
    var u := sets[0];
    var field := ToBigEndian(|u|, 2);
    assert ParameterSetList(sets) == field + (u + ParameterSetList(sets[1..]));
    SliceThree(data, p, p + |ParameterSetList(sets)|, field, u, ParameterSetList(sets[1..]));
    assert Pow256(2) == 0x1_0000;
    BigEndianRoundTrip(|u|, 2);
    Uint16BeValue(data, p);
  }

  /** A set whose length field and bytes are in place comes out first. */
  lemma ParameterSetsCons(data: seq<Byte>, p: nat, count: nat, u: seq<Byte>)
    requires count > 0 && p + 2 + |u| <= |data|
    requires ToUint16Be(data, p) == |u| && data[p + 2..p + 2 + |u|] == u
    ensures ParameterSets(data, p, count) == PrependSets(u, ParameterSets(data, p + 2 + |u|, count - 1))
  {
  }

  /** The copy loop for the SPS or the PPS of an AVC decoder configuration record. */
  method ReadParameterSets(data: seq<Byte>, start: nat, count: nat) returns (r: Option<(seq<Byte>, nat)>)
    ensures r == ParameterSets(data, start, count)
  {
    var sets: seq<Byte> := [];
    var p: nat := start;
    var i: nat := 0;
    PrependSetsNothing(ParameterSets(data, p, count));
    while i < count
      invariant i <= count
      invariant ParameterSets(data, start, count) == PrependSets(sets, ParameterSets(data, p, count - i))
    {
      if p + 2 > |data| {
        return None;
      }
      var length := ToUint16Be(data, p);
      p := p + 2;
      if p + length > |data| {
        return None;
      }
      PrependSetsAssociative(sets, data[p..p + length], ParameterSets(data, p + length, count - i - 1));
      sets := sets + data[p..p + length];
      p := p + length;
      i := i + 1;
    }
    assert sets + [] == sets;
    return Some((sets, p));
  }

  function PrependSets(prefix: seq<Byte>, r: Option<(seq<Byte>, nat)>): Option<(seq<Byte>, nat)>
  {
    if r.Some? then Some((prefix + r.value.0, r.value.1)) else None
  }

  lemma PrependSetsNothing(r: Option<(seq<Byte>, nat)>)
    ensures PrependSets([], r) == r
  {
    if r.Some? {
      assert [] + r.value.0 == r.value.0;
    }
  }

  lemma PrependSetsAssociative(a: seq<Byte>, b: seq<Byte>, r: Option<(seq<Byte>, nat)>)
    ensures PrependSets(a, PrependSets(b, r)) == PrependSets(a + b, r)
  {
    if r.Some? {
      assert a + (b + r.value.0) == (a + b) + r.value.0;
    }
  }

  // ---------------------------------------------------------------------
  // Video: HEVC parameter set arrays

  /** The VPS, SPS and PPS NAL units of an HEVC decoder configuration record. */
  datatype HevcSets = HevcSets(vps: seq<Byte>, sps: seq<Byte>, pps: seq<Byte>)

  /** NAL unit types 32, 33 and 34 are a VPS, an SPS and a PPS; the others are ignored. */
  function AddNalu(sets: HevcSets, naluType: nat, unit: seq<Byte>): HevcSets
  {
    if naluType == 32 then sets.(vps := sets.vps + unit)
    else if naluType == 33 then sets.(sps := sets.sps + unit)
    else if naluType == 34 then sets.(pps := sets.pps + unit)
    else sets
  }

  /**
   * The `count` NAL units of one array from `p`, each a 16-bit length and
   * that many bytes, none of them reaching past `end`.
   */
  function HevcNalus(data: seq<Byte>, p: nat, end: nat, naluType: nat, count: nat, sets: HevcSets): (r: Option<(HevcSets, nat)>)
    requires end < |data|
    ensures r.Some? ==> p <= r.value.1
    ensures r.Some? && count > 0 ==> r.value.1 <= end
    ensures r.Some? ==> Longer(sets, r.value.0)
    ensures r.Some? && naluType != 32 ==> r.value.0.vps == sets.vps
    ensures r.Some? && naluType != 33 ==> r.value.0.sps == sets.sps
    ensures r.Some? && naluType != 34 ==> r.value.0.pps == sets.pps
    decreases count
  {
    if count == 0 then Some((sets, p))
    else if end < p + 2 then None
    else
      var length := ToUint16Be(data, p);
      if end < p + 2 + length then None
      else HevcNalus(data, p + 2 + length, end, naluType, count - 1, AddNalu(sets, naluType, data[p + 2..p + 2 + length]))
  }

  /**
   * What one array adds: its units, read as parameter sets are, appended
   * to the VPS, SPS or PPS that its type names.
   */
  lemma {:induction false} HevcNalusContents(data: seq<Byte>, p: nat, end: nat, naluType: nat, count: nat, sets: HevcSets)
    requires end < |data|
    ensures var r := HevcNalus(data, p, end, naluType, count, sets);
      r.Some? ==>
        var units := ParameterSets(data, p, count);
        && units.Some? && units.value.1 == r.value.1
        && r.value.0 == AddNalu(sets, naluType, units.value.0)
    decreases count
  {
    if count == 0 {
      AddNaluNothing(sets, naluType);
    } else if p + 2 <= end && p + 2 + ToUint16Be(data, p) <= end {
      var length := ToUint16Be(data, p);
      var unit := data[p + 2..p + 2 + length];
      HevcNalusContents(data, p + 2 + length, end, naluType, count - 1, AddNalu(sets, naluType, unit));
      var r := HevcNalus(data, p + 2 + length, end, naluType, count - 1, AddNalu(sets, naluType, unit));
      if r.Some? {
        AddNaluAppend(sets, naluType, unit, ParameterSets(data, p + 2 + length, count - 1).value.0);
      }
    }
  }

  /** Adding two runs of units of one type adds their concatenation. */
  lemma AddNaluAppend(sets: HevcSets, naluType: nat, a: seq<Byte>, b: seq<Byte>)
    ensures AddNalu(AddNalu(sets, naluType, a), naluType, b) == AddNalu(sets, naluType, a + b)
  {
    assert sets.vps + a + b == sets.vps + (a + b);
    assert sets.sps + a + b == sets.sps + (a + b);
    assert sets.pps + a + b == sets.pps + (a + b);
  }

  /** No set is shorter than it was. */
  predicate Longer(sets: HevcSets, sets': HevcSets)
  {
    |sets.vps| <= |sets'.vps| && |sets.sps| <= |sets'.sps| && |sets.pps| <= |sets'.pps|
  }

  /** Each set only grows, by appending. */
  predicate Extends(sets: HevcSets, sets': HevcSets)
  {
    sets.vps <= sets'.vps && sets.sps <= sets'.sps && sets.pps <= sets'.pps
  }

  /** The arrays append to the sets they start from and never drop a unit. */
  lemma {:induction false} HevcArraysExtends(data: seq<Byte>, p: nat, end: nat, count: nat, sets: HevcSets)
    requires end < |data|
    ensures HevcArrays(data, p, end, count, sets).Some? ==> Extends(sets, HevcArrays(data, p, end, count, sets).value)
    decreases count
  {
    if count > 0 && p + 3 <= end {
      HevcNalusContents(data, p + 3, end, data[p] % 64, ToUint16Be(data, p + 1), sets);
      var r := HevcNalus(data, p + 3, end, data[p] % 64, ToUint16Be(data, p + 1), sets);
      if r.Some? {
        HevcArraysExtends(data, r.value.1, end, count - 1, r.value.0);
      }
    }
  }

  /** The `count` arrays from `p`: a type byte, a 16-bit unit count, the units. */
  function HevcArrays(data: seq<Byte>, p: nat, end: nat, count: nat, sets: HevcSets): (r: Option<HevcSets>)
    requires end < |data|
    ensures r.Some? ==> Longer(sets, r.value)
    decreases count
  {
    if count == 0 then Some(sets)
    else if end < p + 3 then None
    else
      match HevcNalus(data, p + 3, end, data[p] % 64, ToUint16Be(data, p + 1), sets)
      case None => None
      case Some((sets', q)) => HevcArrays(data, q, end, count - 1, sets')
  }

  /** The inner loop: the NAL units of one array. */
  method ReadHevcNalus(data: seq<Byte>, start: nat, end: nat, naluType: nat, count: nat, sets0: HevcSets)
    returns (r: Option<(HevcSets, nat)>)
    requires end < |data|
    ensures r == HevcNalus(data, start, end, naluType, count, sets0)
  {
    var sets := sets0;
    var p := start;
    var j: nat := 0;
    while j < count
      invariant j <= count && p >= start
      invariant HevcNalus(data, p, end, naluType, count - j, sets) == HevcNalus(data, start, end, naluType, count, sets0)
    {
      if end < p + 2 {
        return None;
      }
      var length := ToUint16Be(data, p);
      p := p + 2;
      if end < p + length {
        return None;
      }
      sets := AddNalu(sets, naluType, data[p..p + length]);
      p := p + length;
      j := j + 1;
    }
    return Some((sets, p));
  }

  /** The outer loop: the arrays, each a type byte and a 16-bit unit count. */
  method ReadHevcArrays(data: seq<Byte>, start: nat, end: nat, count: nat) returns (r: Option<HevcSets>)
    requires end < |data|
    ensures r == HevcArrays(data, start, end, count, HevcSets([], [], []))
  {
    var sets := HevcSets([], [], []);
    var p: nat := start;
    var i: nat := 0;
    while i < count
      invariant i <= count
      invariant HevcArrays(data, p, end, count - i, sets) == HevcArrays(data, start, end, count, HevcSets([], [], []))
    {
      if end < p + 3 {
        return None;
      }
      var units := ReadHevcNalus(data, p + 3, end, data[p] % 64, ToUint16Be(data, p + 1), sets);
      if units.None? {
        return None;
      }
      sets, p := units.value.0, units.value.1;
      i := i + 1;
    }
    return Some(sets);
  }

  /** One array of an HEVC decoder configuration record: its type byte and its NAL units. */
  datatype HevcArray = HevcArray(header: Byte, units: seq<seq<Byte>>)

  /** Arrays as a record stores them: type byte, 16-bit unit count, the units. */
  function HevcArrayList(arrays: seq<HevcArray>): seq<Byte>
  {
    if |arrays| == 0 then [] else HevcArrayBytes(arrays[0]) + HevcArrayList(arrays[1..])
  }

  function HevcArrayBytes(a: HevcArray): seq<Byte>
  {
    [a.header] + ToBigEndian(|a.units|, 2) + ParameterSetList(a.units)
  }

  /** Every unit count and every unit length fits its 16-bit field. */
  predicate StorableArrays(arrays: seq<HevcArray>)
  {
    |arrays| == 0 || (|arrays[0].units| < 0x1_0000 && ShortSets(arrays[0].units) && StorableArrays(arrays[1..]))
  }

  /** The units of the arrays whose NAL unit type is `t`, in array order; every other array is skipped. */
  function ArrayUnits(arrays: seq<HevcArray>, t: nat): seq<Byte>
  {
    if |arrays| == 0 then []
    else (if arrays[0].header % 64 == t then Flatten(arrays[0].units) else []) + ArrayUnits(arrays[1..], t)
  }

  /** The sets after adding each array's units, array by array, to the set its type names. */
  function Collected(sets: HevcSets, arrays: seq<HevcArray>): HevcSets
    decreases |arrays|
  {
    if |arrays| == 0 then sets
    else Collected(AddNalu(sets, arrays[0].header % 64, Flatten(arrays[0].units)), arrays[1..])
  }

  /** Each of VPS, SPS and PPS ends up followed by the units of the arrays of its type, in array order. */
  lemma {:induction false} CollectedUnits(sets: HevcSets, arrays: seq<HevcArray>)
    ensures Collected(sets, arrays)
            == HevcSets(sets.vps + ArrayUnits(arrays, 32), sets.sps + ArrayUnits(arrays, 33), sets.pps + ArrayUnits(arrays, 34))
    decreases |arrays|
  {
    if |arrays| == 0 {
      assert sets.vps + [] == sets.vps && sets.sps + [] == sets.sps && sets.pps + [] == sets.pps;
    } else {
      var t := arrays[0].header % 64;
      var f := Flatten(arrays[0].units);
      var rest := arrays[1..];
      var sets' := AddNalu(sets, t, f);
      CollectedUnits(sets', rest);
      assert sets'.vps == if t == 32 then sets.vps + f else sets.vps;
      assert sets'.sps == if t == 33 then sets.sps + f else sets.sps;
      assert sets'.pps == if t == 34 then sets.pps + f else sets.pps;
      AppendUnits(sets.vps, t == 32, f, ArrayUnits(rest, 32));
      AppendUnits(sets.sps, t == 33, f, ArrayUnits(rest, 33));
      AppendUnits(sets.pps, t == 34, f, ArrayUnits(rest, 34));
    }
  }



  /**
   * Units that read back as parameter sets within `end` are added, in
   * that order, to the set their type names.
   */
  lemma {:induction false} HevcNalusWithin(data: seq<Byte>, p: nat, end: nat, t: nat, count: nat, sets: HevcSets)
    requires end < |data|
    requires ParameterSets(data, p, count).Some? && ParameterSets(data, p, count).value.1 <= end
    ensures HevcNalus(data, p, end, t, count, sets)
            == Some((AddNalu(sets, t, ParameterSets(data, p, count).value.0), ParameterSets(data, p, count).value.1))
    decreases count
  {
    if count == 0 {
      AddNaluNothing(sets, t);
    } else {
      var length := ToUint16Be(data, p);
      var unit := data[p + 2..p + 2 + length];
      var rest := ParameterSets(data, p + 2 + length, count - 1);
      assert rest.Some? && p + 2 + length <= rest.value.1;
      HevcNalusWithin(data, p + 2 + length, end, t, count - 1, AddNalu(sets, t, unit));
      AddNaluAppend(sets, t, unit, rest.value.0);
    }
  }

  lemma AddNaluNothing(sets: HevcSets, t: nat)
    ensures AddNalu(sets, t, []) == sets
  {
    assert sets.vps + [] == sets.vps && sets.sps + [] == sets.sps && sets.pps + [] == sets.pps;
  }

  /** Stored arrays: the first array's bytes, then the arrays after it. */
  lemma HevcArrayListSplit(arrays: seq<HevcArray>, data: seq<Byte>, p: nat)
    requires |arrays| > 0 && p + |HevcArrayList(arrays)| <= |data|
    requires data[p..p + |HevcArrayList(arrays)|] == HevcArrayList(arrays)
    ensures |HevcArrayList(arrays)| == |HevcArrayBytes(arrays[0])| + |HevcArrayList(arrays[1..])|
    ensures data[p..p + |HevcArrayBytes(arrays[0])|] == HevcArrayBytes(arrays[0])
    ensures var q := p + |HevcArrayBytes(arrays[0])|;
      data[q..q + |HevcArrayList(arrays[1..])|] == HevcArrayList(arrays[1..])
  {
    assert HevcArrayList(arrays) == HevcArrayBytes(arrays[0]) + HevcArrayList(arrays[1..]);
    SliceSplit(data, p, HevcArrayBytes(arrays[0]), HevcArrayList(arrays[1..]));
  }

  /** One stored array: its type byte, its unit count, its units. */
  lemma HevcArrayBytesHead(a: HevcArray, data: seq<Byte>, p: nat)
    requires |a.units| < 0x1_0000 && p + |HevcArrayBytes(a)| <= |data|
    requires data[p..p + |HevcArrayBytes(a)|] == HevcArrayBytes(a)
    ensures |HevcArrayBytes(a)| == 3 + |ParameterSetList(a.units)|
    ensures data[p] == a.header && ToUint16Be(data, p + 1) == |a.units|
    ensures data[p + 3..p + 3 + |ParameterSetList(a.units)|] == ParameterSetList(a.units)
  {
    var field := ToBigEndian(|a.units|, 2);
    SliceSplit(data, p, [a.header] + field, ParameterSetList(a.units));
    HeaderByte(data, p, p + 3, a.header, field);
    UnitCount(data, p + 1, |a.units|);
  }



  /** A slice that spells a byte and then `tail` holds that byte first. */
  lemma HeaderByte(data: seq<Byte>, p: nat, end: nat, b: Byte, tail: seq<Byte>)
    requires p <= end <= |data| && data[p..end] == [b] + tail
    ensures p < end && data[p] == b && data[p + 1..end] == tail
  {
    assert data[p] == data[p..end][0];
    assert data[p + 1..end] == data[p..end][1..];
  }

  /** A 16-bit count stored big-endian reads back. */
  lemma UnitCount(data: seq<Byte>, p: nat, n: nat)
    requires n < 0x1_0000 && p + 2 <= |data| && data[p..p + 2] == ToBigEndian(n, 2)
    ensures ToUint16Be(data, p) == n
  {
    assert Pow256(2) == 0x1_0000;
    BigEndianRoundTrip(n, 2);
    Uint16BeValue(data, p);
  }



  lemma AppendUnits(s: seq<Byte>, keep: bool, f: seq<Byte>, rest: seq<Byte>)
    ensures (if keep then s + f else s) + rest == s + ((if keep then f else []) + rest)
  {
    if !keep {
      assert [] + rest == rest;
    }
  }

  /** Reading back arrays that each read back keeps the VPS, SPS and PPS arrays' units and skips the rest. */
  lemma {:induction false} HevcArraysRoundTrip(arrays: seq<HevcArray>, data: seq<Byte>, p: nat, end: nat, count: nat, sets: HevcSets)
    requires count == |arrays| && end < |data| && ArraysRead(data, p, end, arrays)
    ensures HevcArrays(data, p, end, count, sets) == Some(Collected(sets, arrays))
    decreases count
  {
    if count > 0 {
      HevcNalusWithin(data, p + 3, end, arrays[0].header % 64, |arrays[0].units|, sets);
      HevcArraysRoundTrip(arrays[1..], data, p + |HevcArrayBytes(arrays[0])|, end, count - 1,
                          AddNalu(sets, arrays[0].header % 64, Flatten(arrays[0].units)));
    }
  }

  /** The array at `p` reads back: its type, its unit count, and its units, ending by `end`. */
  predicate ArrayReads(data: seq<Byte>, p: nat, end: nat, a: HevcArray)
  {
    && p + 3 <= end < |data|
    && data[p] % 64 == a.header % 64
    && ToUint16Be(data, p + 1) == |a.units|
    && ParameterSets(data, p + 3, |a.units|) == Some((Flatten(a.units), p + |HevcArrayBytes(a)|))
    && p + |HevcArrayBytes(a)| <= end
  }

  /** The arrays read back one after another from `p`. */
  predicate ArraysRead(data: seq<Byte>, p: nat, end: nat, arrays: seq<HevcArray>)
    decreases |arrays|
  {
    |arrays| == 0 || (ArrayReads(data, p, end, arrays[0]) && ArraysRead(data, p + |HevcArrayBytes(arrays[0])|, end, arrays[1..]))
  }

  /** A stored array reads back. */
  lemma HevcArrayStored(a: HevcArray, data: seq<Byte>, p: nat, end: nat)
    requires |a.units| < 0x1_0000 && ShortSets(a.units)
    requires p + |HevcArrayBytes(a)| <= end < |data|
    requires data[p..p + |HevcArrayBytes(a)|] == HevcArrayBytes(a)
    ensures ArrayReads(data, p, end, a)
  {
    HevcArrayBytesHead(a, data, p);
    ParameterSetsRoundTrip(a.units, data, p + 3);
  }

  /** Each array of a stored list reads back. */
  lemma {:induction false} HevcArrayListRead(arrays: seq<HevcArray>, data: seq<Byte>, p: nat, end: nat)
    requires StorableArrays(arrays)
    requires p + |HevcArrayList(arrays)| <= end < |data|
    requires data[p..p + |HevcArrayList(arrays)|] == HevcArrayList(arrays)
    ensures ArraysRead(data, p, end, arrays)
    decreases |arrays|
  {
    if |arrays| > 0 {
      HevcArrayListSplit(arrays, data, p);
      HevcArrayStored(arrays[0], data, p, end);
      HevcArrayListRead(arrays[1..], data, p + |HevcArrayBytes(arrays[0])|, end);
    }
  }




  // ---------------------------------------------------------------------
  // Video tags

  /** is_hevc_codec_id: CodecID 12 is HEVC. */
  predicate IsHevcCodecId(codec: nat)
  {
    codec == 12
  }

  /**
   * An AVCDecoderConfigurationRecord (ISO/IEC 14496-15, 5.2.4) at `o`:
   * version 1, three bytes of profile and level, the length-size flag
   * (stored before anything else can fail), then the SPS and the PPS lists.
   */
  function AvcConfigRecord(data: seq<Byte>, o: nat, lengthSize: nat, cb: Callbacks): (r: TagOutcome)
    requires ValidLengthSize(lengthSize)
    ensures ValidLengthSize(r.lengthSize) && |r.events| <= 1
    ensures r.failed ==> r.events == []
    ensures o + 4 >= |data| || data[o] != 1 || data[o + 4] % 4 == 2 ==> r == Failure(lengthSize)
    ensures o + 4 < |data| && data[o] == 1 && data[o + 4] % 4 != 2 ==>
      r.lengthSize == LengthSizeFromFlag(data[o + 4] % 4).value
    ensures !r.failed ==> |r.events| == (if cb.avcConfig then 1 else 0)
  {
    if o >= |data| || data[o] != 1 then Failure(lengthSize)
    else if o + 4 >= |data| then Failure(lengthSize)
    else
      match LengthSizeFromFlag(data[o + 4] % 4)
      case None => Failure(lengthSize)
      case Some(n) =>
        if o + 5 >= |data| then Failure(n)
        else
          match ParameterSets(data, o + 6, data[o + 5] % 32)
          case None => Failure(n)
          case Some((sps, q)) =>
            if q >= |data| then Failure(n)
            else
              match ParameterSets(data, q + 1, data[q])
              case None => Failure(n)
              case Some((pps, _)) => TagOutcome(if cb.avcConfig then [AvcConfigEvent(sps, pps)] else [], n, false)
  }

  /** A record that stores SPS and PPS lists reports them, each list back to back. */
  lemma AvcConfigRecordRoundTrip(data: seq<Byte>, o: nat, spsList: seq<seq<Byte>>, q: nat, ppsList: seq<seq<Byte>>,
                                 lengthSize: nat, cb: Callbacks)
    requires ValidLengthSize(lengthSize)
    requires ShortSets(spsList) && ShortSets(ppsList) && |spsList| < 32 && |ppsList| < 256
    requires q == o + 6 + |ParameterSetList(spsList)| && q + 1 + |ParameterSetList(ppsList)| <= |data|
    requires data[o] == 1 && data[o + 4] % 4 != 2 && data[o + 5] % 32 == |spsList|
    requires data[o + 6..q] == ParameterSetList(spsList)
    requires data[q] == |ppsList| && data[q + 1..q + 1 + |ParameterSetList(ppsList)|] == ParameterSetList(ppsList)
    ensures AvcConfigRecord(data, o, lengthSize, cb)
            == TagOutcome(if cb.avcConfig then [AvcConfigEvent(Flatten(spsList), Flatten(ppsList))] else [],
                          LengthSizeFromFlag(data[o + 4] % 4).value, false)
  {
    AvcListsReadBack(data, o, spsList, q, ppsList);
    AvcConfigRecordAccepts(data, o, lengthSize, cb, Flatten(spsList), q, Flatten(ppsList));
  }

  /** Both stored lists of a record read back, the SPS count masked to five bits. */
  lemma AvcListsReadBack(data: seq<Byte>, o: nat, spsList: seq<seq<Byte>>, q: nat, ppsList: seq<seq<Byte>>)
    requires ShortSets(spsList) && ShortSets(ppsList) && |spsList| < 32 && |ppsList| < 256
    requires q == o + 6 + |ParameterSetList(spsList)| && q + 1 + |ParameterSetList(ppsList)| <= |data|
    requires data[o + 5] % 32 == |spsList| && data[o + 6..q] == ParameterSetList(spsList)
    requires data[q] == |ppsList| && data[q + 1..q + 1 + |ParameterSetList(ppsList)|] == ParameterSetList(ppsList)
    ensures ParameterSets(data, o + 6, data[o + 5] % 32) == Some((Flatten(spsList), q))
    ensures ParameterSets(data, q + 1, data[q]).Some? && ParameterSets(data, q + 1, data[q]).value.0 == Flatten(ppsList)
  {
    ParameterSetsReadBack(spsList, data, o + 6, data[o + 5] % 32);
    ParameterSetsReadBack(ppsList, data, q + 1, data[q]);
  }

  /** A stored list read back with the count its record gives for it. */
  lemma ParameterSetsReadBack(sets: seq<seq<Byte>>, data: seq<Byte>, p: nat, count: nat)
    requires ShortSets(sets) && count == |sets|
    requires p + |ParameterSetList(sets)| <= |data|
    requires data[p..p + |ParameterSetList(sets)|] == ParameterSetList(sets)
    ensures ParameterSets(data, p, count) == Some((Flatten(sets), p + |ParameterSetList(sets)|))
  {
    ParameterSetsRoundTrip(sets, data, p);
  }

  /** A record whose version, flag and both lists read back reports the lists. */
  lemma AvcConfigRecordAccepts(data: seq<Byte>, o: nat, lengthSize: nat, cb: Callbacks, sps: seq<Byte>, q: nat, pps: seq<Byte>)
    requires ValidLengthSize(lengthSize)
    requires q < |data| && o + 5 < |data| && data[o] == 1 && data[o + 4] % 4 != 2
    requires ParameterSets(data, o + 6, data[o + 5] % 32) == Some((sps, q))
    requires ParameterSets(data, q + 1, data[q]).Some? && ParameterSets(data, q + 1, data[q]).value.0 == pps
    ensures AvcConfigRecord(data, o, lengthSize, cb)
            == TagOutcome(if cb.avcConfig then [AvcConfigEvent(sps, pps)] else [],
                          LengthSizeFromFlag(data[o + 4] % 4).value, false)
  {
  }

  /**
   * An HEVCDecoderConfigurationRecord (ISO/IEC 14496-15) in a tag body
   * ending at `end`: 23 bytes at least, version 1, the length-size flag
   * in byte 21, the array count in byte 22.
   */
  function HevcConfigRecord(data: seq<Byte>, o: nat, end: nat, lengthSize: nat, cb: Callbacks): (r: TagOutcome)
    requires end < |data| && ValidLengthSize(lengthSize)
    ensures ValidLengthSize(r.lengthSize) && |r.events| <= 1
    ensures r.failed ==> r.events == []
    ensures end < o + 23 || data[o] != 1 || data[o + 21] % 4 == 2 ==> r == Failure(lengthSize)
    ensures o + 23 <= end && data[o] == 1 && data[o + 21] % 4 != 2 ==>
      r.lengthSize == LengthSizeFromFlag(data[o + 21] % 4).value
    ensures !r.failed ==> |r.events| == (if cb.hevcConfig then 1 else 0)
  {
    if end < o + 23 then Failure(lengthSize)
    else if data[o] != 1 then Failure(lengthSize)
    else
      match LengthSizeFromFlag(data[o + 21] % 4)
      case None => Failure(lengthSize)
      case Some(n) =>
        match HevcArrays(data, o + 23, end, data[o + 22], HevcSets([], [], []))
        case None => Failure(n)
        case Some(sets) =>
          TagOutcome(if cb.hevcConfig then [HevcConfigEvent(sets.vps, sets.sps, sets.pps)] else [], n, false)
  }

  /**
   * A record that stores parameter set arrays reports the units of its
   * VPS (type 32), SPS (33) and PPS (34) arrays, each in array order.
   */
  lemma HevcConfigRecordRoundTrip(data: seq<Byte>, o: nat, end: nat, arrays: seq<HevcArray>,
                                  lengthSize: nat, cb: Callbacks)
    requires ValidLengthSize(lengthSize) && StorableArrays(arrays) && |arrays| < 256
    requires o + 23 + |HevcArrayList(arrays)| <= end < |data|
    requires data[o] == 1 && data[o + 21] % 4 != 2 && data[o + 22] == |arrays|
    requires data[o + 23..o + 23 + |HevcArrayList(arrays)|] == HevcArrayList(arrays)
    ensures HevcConfigRecord(data, o, end, lengthSize, cb)
            == TagOutcome(if cb.hevcConfig
                            then [HevcConfigEvent(ArrayUnits(arrays, 32), ArrayUnits(arrays, 33), ArrayUnits(arrays, 34))]
                            else [],
                          LengthSizeFromFlag(data[o + 21] % 4).value, false)
  {
    HevcArraysReadBack(data, o, end, arrays);
    var sets := HevcSets(ArrayUnits(arrays, 32), ArrayUnits(arrays, 33), ArrayUnits(arrays, 34));
    HevcConfigRecordAccepts(data, o, end, lengthSize, cb, sets);
  }

  /** The stored arrays of a record read back from an empty start, with the count its record gives. */
  lemma HevcArraysReadBack(data: seq<Byte>, o: nat, end: nat, arrays: seq<HevcArray>)
    requires StorableArrays(arrays) && |arrays| < 256
    requires o + 23 + |HevcArrayList(arrays)| <= end < |data| && data[o + 22] == |arrays|
    requires data[o + 23..o + 23 + |HevcArrayList(arrays)|] == HevcArrayList(arrays)
    ensures HevcArrays(data, o + 23, end, data[o + 22], HevcSets([], [], []))
            == Some(HevcSets(ArrayUnits(arrays, 32), ArrayUnits(arrays, 33), ArrayUnits(arrays, 34)))
  {
    assert HevcArrays(data, o + 23, end, data[o + 22], HevcSets([], [], []))
           == Some(Collected(HevcSets([], [], []), arrays)) by {
      HevcArrayListRead(arrays, data, o + 23, end);
      HevcArraysRoundTrip(arrays, data, o + 23, end, data[o + 22], HevcSets([], [], []));
    }
    CollectedEmpty(arrays);
  }

  lemma CollectedEmpty(arrays: seq<HevcArray>)
    ensures Collected(HevcSets([], [], []), arrays)
            == HevcSets(ArrayUnits(arrays, 32), ArrayUnits(arrays, 33), ArrayUnits(arrays, 34))
  {
    CollectedUnits(HevcSets([], [], []), arrays);
    assert [] + ArrayUnits(arrays, 32) == ArrayUnits(arrays, 32);
    assert [] + ArrayUnits(arrays, 33) == ArrayUnits(arrays, 33);
    assert [] + ArrayUnits(arrays, 34) == ArrayUnits(arrays, 34);
  }

  /** A record whose version, flag and arrays read back reports the sets the arrays fill. */
  lemma HevcConfigRecordAccepts(data: seq<Byte>, o: nat, end: nat, lengthSize: nat, cb: Callbacks, sets: HevcSets)
    requires ValidLengthSize(lengthSize)
    requires o + 23 <= end < |data| && data[o] == 1 && data[o + 21] % 4 != 2
    requires HevcArrays(data, o + 23, end, data[o + 22], HevcSets([], [], [])) == Some(sets)
    ensures HevcConfigRecord(data, o, end, lengthSize, cb)
            == TagOutcome(if cb.hevcConfig then [HevcConfigEvent(sets.vps, sets.sps, sets.pps)] else [],
                          LengthSizeFromFlag(data[o + 21] % 4).value, false)
  {
  }

  /**
   * A packet of NAL units (AVC or HEVC packet type 1), decoded only when a
   * video-sample callback is set; it needs a length size from an earlier
   * decoder configuration record.
   */
  function NaluSample(data: seq<Byte>, h: TagHeader, lengthSize: nat, cb: Callbacks, ct: nat, isKeyFrame: bool): (r: TagOutcome)
    requires InBuffer(data, h) && ValidLengthSize(lengthSize) && ct < 0x100_0000
    ensures r.lengthSize == lengthSize && |r.events| <= 1
    ensures r.failed ==> r.events == []
    ensures cb.videoSample && lengthSize == 0 ==> r.failed
    ensures !cb.videoSample ==> r == TagOutcome([], lengthSize, false)
    ensures cb.videoSample && lengthSize != 0 ==>
      && (r.failed <==> NalUnits(data, h.dataOffset + 5, h.dataOffset + h.dataSize, lengthSize).None?)
      && (!r.failed ==> |r.events| == 1)
    ensures r.events != [] ==> var dts := SampleTime(h.timestamp, h.timestampExtended);
      lengthSize != 0 && NalUnits(data, h.dataOffset + 5, h.dataOffset + h.dataSize, lengthSize).Some? &&
      r.events[0] == VideoSampleEvent(VideoSample(dts, PresentationTimeAsWritten(dts, ct), isKeyFrame,
                                                  NalUnits(data, h.dataOffset + 5, h.dataOffset + h.dataSize, lengthSize).value))
  {
    if !cb.videoSample then TagOutcome([], lengthSize, false)
    else if lengthSize == 0 then Failure(lengthSize)
    else
      match NalUnits(data, h.dataOffset + 5, h.dataOffset + h.dataSize, lengthSize)
      case None => Failure(lengthSize)
      case Some(payload) =>
        var dts := SampleTime(h.timestamp, h.timestampExtended);
        var sample := VideoSample(dts, PresentationTimeAsWritten(dts, ct), isKeyFrame, payload);
        TagOutcome([VideoSampleEvent(sample)], lengthSize, false)
  }

  /**
   * Video data: the frame type (1 is a key frame) and the codec in the
   * first byte; only AVC (7) and HEVC (12) are accepted. Packet type 0 is
   * a decoder configuration record, 1 a packet of NAL units, 2 the end of
   * the sequence.
   */
  function VideoTag(data: seq<Byte>, h: TagHeader, lengthSize: nat, cb: Callbacks): (r: TagOutcome)
    requires InBuffer(data, h) && ValidLengthSize(lengthSize)
    ensures ValidLengthSize(r.lengthSize) && |r.events| <= 1
    ensures r.failed ==> r.events == []
    ensures data[h.dataOffset] % 16 != 7 && data[h.dataOffset] % 16 != 12 ==> r == Failure(lengthSize)
    ensures data[h.dataOffset] % 16 == 12 && h.dataSize < 5 ==> r == Failure(lengthSize)
    ensures var o := h.dataOffset; var codec := data[o] % 16;
      (codec == 7 || (codec == 12 && 5 <= h.dataSize)) ==>
        && (data[o + 1] == 0 && codec == 7 ==> r == AvcConfigRecord(data, o + 5, lengthSize, cb))
        && (data[o + 1] == 0 && codec == 12 ==> r == HevcConfigRecord(data, o + 5, o + h.dataSize, lengthSize, cb))
        && (data[o + 1] == 1 ==> r == NaluSample(data, h, lengthSize, cb, ToUint24Be(data, o + 2), data[o] / 16 == 1))
        && (data[o + 1] == 2 ==> r == TagOutcome([], lengthSize, false))
        && (data[o + 1] > 2 ==> r == Failure(lengthSize))
  {
    var flags := data[h.dataOffset];
    var codec := flags % 16;
    var isKeyFrame := flags / 16 == 1;
    if codec != 7 && !IsHevcCodecId(codec) then Failure(lengthSize)
    else if codec == 7 then
      var packetType := data[h.dataOffset + 1];
      var ct := ToUint24Be(data, h.dataOffset + 2);
      if packetType == 0 then AvcConfigRecord(data, h.dataOffset + 5, lengthSize, cb)
      else if packetType == 1 then NaluSample(data, h, lengthSize, cb, ct, isKeyFrame)
      else if packetType == 2 then TagOutcome([], lengthSize, false)
      else Failure(lengthSize)
    else if h.dataSize < 5 then Failure(lengthSize)
    else
      var packetType := data[h.dataOffset + 1];
      var ct := ToUint24Be(data, h.dataOffset + 2);
      if packetType == 0 then HevcConfigRecord(data, h.dataOffset + 5, h.dataOffset + h.dataSize, lengthSize, cb)
      else if packetType == 1 then NaluSample(data, h, lengthSize, cb, ct, isKeyFrame)
      else if packetType == 2 then TagOutcome([], lengthSize, false)
      else Failure(lengthSize)
  }

  /** The body of any tag: script data, audio, video; other tag types are skipped. */
  function TagBody(data: seq<Byte>, h: TagHeader, lengthSize: nat, cb: Callbacks): (r: TagOutcome)
    requires InBuffer(data, h) && ValidLengthSize(lengthSize)
    ensures ValidLengthSize(r.lengthSize)
    ensures h.tagType != 8 && h.tagType != 9 && h.tagType != 18 ==> r == TagOutcome([], lengthSize, false)
  {
    if h.tagType == 18 then ScriptTag(data, h, lengthSize, cb)
    else if h.tagType == 8 then AudioTag(data, h, lengthSize, cb)
    else if h.tagType == 9 then VideoTag(data, h, lengthSize, cb)
    else TagOutcome([], lengthSize, false)
  }

  // ---------------------------------------------------------------------
  // The same decoding as the parser runs it, its loops as loops

  method DecodeAvcConfigRecord(data: seq<Byte>, o: nat, lengthSize: nat, cb: Callbacks) returns (r: TagOutcome)
    requires ValidLengthSize(lengthSize)
    ensures r == AvcConfigRecord(data, o, lengthSize, cb)
  {
    if o >= |data| || data[o] != 1 || o + 4 >= |data| {
      return Failure(lengthSize);
    }
    var flag := LengthSizeFromFlag(data[o + 4] % 4);
    if flag.None? {
      return Failure(lengthSize);
    }
    var n := flag.value;
    if o + 5 >= |data| {
      return Failure(n);
    }
    var sps := ReadParameterSets(data, o + 6, data[o + 5] % 32);
    if sps.None? || sps.value.1 >= |data| {
      return Failure(n);
    }
    var q := sps.value.1;
    var pps := ReadParameterSets(data, q + 1, data[q]);
    if pps.None? {
      return Failure(n);
    }
    r := TagOutcome(if cb.avcConfig then [AvcConfigEvent(sps.value.0, pps.value.0)] else [], n, false);
  }

  method DecodeHevcConfigRecord(data: seq<Byte>, o: nat, end: nat, lengthSize: nat, cb: Callbacks) returns (r: TagOutcome)
    requires end < |data| && ValidLengthSize(lengthSize)
    ensures r == HevcConfigRecord(data, o, end, lengthSize, cb)
  {
    if end < o + 23 || data[o] != 1 {
      return Failure(lengthSize);
    }
    var flag := LengthSizeFromFlag(data[o + 21] % 4);
    if flag.None? {
      return Failure(lengthSize);
    }
    var sets := ReadHevcArrays(data, o + 23, end, data[o + 22]);
    if sets.None? {
      return Failure(flag.value);
    }
    var v := sets.value;
    r := TagOutcome(if cb.hevcConfig then [HevcConfigEvent(v.vps, v.sps, v.pps)] else [], flag.value, false);
  }

  method DecodeNaluSample(data: seq<Byte>, h: TagHeader, lengthSize: nat, cb: Callbacks, ct: nat, isKeyFrame: bool) returns (r: TagOutcome)
    requires InBuffer(data, h) && ValidLengthSize(lengthSize) && ct < 0x100_0000
    ensures r == NaluSample(data, h, lengthSize, cb, ct, isKeyFrame)
  {
    if !cb.videoSample {
      return TagOutcome([], lengthSize, false);
    }
    if lengthSize == 0 {
      return Failure(lengthSize);
    }
    var dts := SampleTime(h.timestamp, h.timestampExtended);
    var payload := ReadNalUnits(data, h.dataOffset + 5, h.dataOffset + h.dataSize, lengthSize);
    if payload.None? {
      return Failure(lengthSize);
    }
    var sample := VideoSample(dts, PresentationTimeAsWritten(dts, ct), isKeyFrame, payload.value);
    r := TagOutcome([VideoSampleEvent(sample)], lengthSize, false);
  }

  method DecodeVideoTag(data: seq<Byte>, h: TagHeader, lengthSize: nat, cb: Callbacks) returns (r: TagOutcome)
    requires InBuffer(data, h) && ValidLengthSize(lengthSize)
    ensures r == VideoTag(data, h, lengthSize, cb)
  {
    var flags := data[h.dataOffset];
    var codec := flags % 16;
    var isKeyFrame := flags / 16 == 1;
    if codec != 7 && !IsHevcCodecId(codec) {
      return Failure(lengthSize);
    }
    if codec == 12 && h.dataSize < 5 {
      return Failure(lengthSize);
    }
    var packetType := data[h.dataOffset + 1];
    var ct := ToUint24Be(data, h.dataOffset + 2);
    if packetType == 0 {
      if codec == 7 {
        r := DecodeAvcConfigRecord(data, h.dataOffset + 5, lengthSize, cb);
      } else {
        r := DecodeHevcConfigRecord(data, h.dataOffset + 5, h.dataOffset + h.dataSize, lengthSize, cb);
      }
    } else if packetType == 1 {
      r := DecodeNaluSample(data, h, lengthSize, cb, ct, isKeyFrame);
    } else if packetType == 2 {
      r := TagOutcome([], lengthSize, false);
    } else {
      r := Failure(lengthSize);
    }
  }

  method DecodeTagBody(data: seq<Byte>, h: TagHeader, lengthSize: nat, cb: Callbacks) returns (r: TagOutcome)
    requires InBuffer(data, h) && ValidLengthSize(lengthSize)
    ensures r == TagBody(data, h, lengthSize, cb)
  {
    if h.tagType == 18 {
      r := ScriptTag(data, h, lengthSize, cb);
    } else if h.tagType == 8 {
      r := AudioTag(data, h, lengthSize, cb);
    } else if h.tagType == 9 {
      r := DecodeVideoTag(data, h, lengthSize, cb);
    } else {
      r := TagOutcome([], lengthSize, false);
    }
  }
}
