// FlvMediaStreamSource (FlvMediaStreamSource.cpp): the adapter that hands
// the core player's output to a Windows MediaStreamSource. Creating it opens
// the player and turns the video information into stream descriptors; the
// audio descriptor is read back out of the hex audio private data. Its two
// event handlers answer the start of playback with a seek and each sample
// request with one sample of the player, and Close detaches it from both.
//
// The platform objects are not modelled: what a handler receives from the
// player (a seek result, a sample or an error) is a parameter, and what it
// does to the request is its result.

module MediaSource {
  import opened Bytes
  import opened Wrappers
  import opened Hex
  import opened SampleTypes
  import opened FlvTags
  import FlvPlayer

  // ---------------------------------------------------------------------
  // The audio descriptor, decoded from the private data

  /**
   * std::stol(acpd.substr(i, 2), 0, 16) on two hex digits: the byte they
   * spell, high nibble first.
   */
  function HexPair(s: string, i: nat): (r: Option<Byte>)
  {
    if i + 2 > |s| then None
    else
      var hi, lo := DigitValue(s[i]), DigitValue(s[i + 1]);
      if hi.None? || lo.None? then None else Some(hi.value * 16 + lo.value)
  }

  /** The `n` bytes spelt from character `i` on, least significant first, as one number. */
  function Field(s: string, i: nat, n: nat): (r: Option<nat>)
    decreases n
  {
    if n == 0 then Some(0)
    else
      var low, high := HexPair(s, i), Field(s, i + 2, n - 1);
      if low.None? || high.None? then None else Some(low.value + 0x100 * high.value)
  }

  datatype AudioSubtype = Mp3 | Aac

  /** The arguments of AudioEncodingProperties::CreateMp3 or CreateAac. */
  datatype AudioProperties = AudioProperties(subtype: AudioSubtype, sampleRate: nat, channelCount: nat, bitRate: nat)

  /**
   * The audio properties create_from_read_stream_proxy_async reads out of
   * the private data: the format tag from characters 0-3, the channels from
   * 4-7, the sample rate from 8-15 and the bits per sample from 28-31. Format
   * 0x0055 is MP3, anything else AAC; the bit rate is the sample rate times
   * the bits per sample, in 32 bits.
   */
  function AudioPropertiesOf(acpd: string): (r: Option<AudioProperties>)
    ensures r.Some? ==> r.value.channelCount < 0x1_0000 && r.value.sampleRate < 0x1_0000_0000
                        && r.value.bitRate < 0x1_0000_0000
  {
    var formatTag, channels, rate, bits := Field(acpd, 0, 2), Field(acpd, 4, 2), Field(acpd, 8, 4), Field(acpd, 28, 2);
    if formatTag.None? || channels.None? || rate.None? || bits.None? then None
    else
      FieldBound(acpd, 4, 2);
      FieldBound(acpd, 8, 4);
      Some(AudioProperties(if formatTag.value == 0x0055 then Mp3 else Aac, rate.value, channels.value,
                           (rate.value * bits.value) % 0x1_0000_0000))
  }

  lemma {:induction false} FieldBound(s: string, i: nat, n: nat)
    requires Field(s, i, n).Some?
    ensures Field(s, i, n).value < Pow256(n)
    decreases n
  {
    if n > 0 {
      FieldBound(s, i + 2, n - 1);
      var high := Field(s, i + 2, n - 1).value;
      assert high + 1 <= Pow256(n - 1);
      assert 0x100 * (high + 1) <= 0x100 * Pow256(n - 1);
    }
  }

  /** Reading `n` bytes back out of a hex string yields their little-endian value. */
  lemma {:induction false} FieldOfHex(data: seq<Byte>, rest: string, k: nat, n: nat)
    requires k + n <= |data|
    ensures Field(HexString(data, true) + rest, 2 * k, n) == Some(LittleEndian(data[k..k + n]))
    decreases n
  {
    if n > 0 {
      var s := HexString(data, true) + rest;
      HexStringAt(data, true, k);
      DigitRoundTrip(data[k] / 16, true);
      DigitRoundTrip(data[k] % 16, true);
      assert HexPair(s, 2 * k) == Some(data[k]);
      FieldOfHex(data, rest, k + 1, n - 1);
      assert data[k..k + n][1..] == data[k + 1..k + n];
    }
  }

  /**
   * Decoding the private data that on_audio_specific_config wrote gives back
   * the channels and sample rate of the configuration, and the format and
   * the bits per sample through the subtype and the bit rate, whatever
   * follows the 36 digits.
   */
  lemma AudioPropertiesRoundTrip(c: AudioConfig, rest: string)
    requires c.formatTag < 0x1_0000 && c.channels < 0x1_0000 && c.bitsPerSample < 0x1_0000
    requires c.samplesPerSecond < 0x1_0000_0000
    ensures AudioPropertiesOf(FlvPlayer.AudioConfigHex(c) + rest)
            == Some(AudioProperties(if c.formatTag == 0x0055 then Mp3 else Aac, c.samplesPerSecond, c.channels,
                                    (c.samplesPerSecond * c.bitsPerSample) % 0x1_0000_0000))
  {
    var b := FlvPlayer.AudioConfigBytes(c);
    ConfigLayout(c);
    assert Pow256(2) == 0x1_0000 && Pow256(4) == 0x1_0000_0000;
    FieldOfConfig(b, rest, 0, 2, c.formatTag);
    FieldOfConfig(b, rest, 2, 2, c.channels);
    FieldOfConfig(b, rest, 4, 4, c.samplesPerSecond);
    FieldOfConfig(b, rest, 14, 2, c.bitsPerSample);
  }

  /** Where on_audio_specific_config puts the fields the descriptor reads back. */
  lemma ConfigLayout(c: AudioConfig)
    ensures var b := FlvPlayer.AudioConfigBytes(c);
      && b[0..2] == ToLittleEndian(c.formatTag, 2) && b[2..4] == ToLittleEndian(c.channels, 2)
      && b[4..8] == ToLittleEndian(c.samplesPerSecond, 4) && b[14..16] == ToLittleEndian(c.bitsPerSample, 2)
  {
  }

  /** A field written little-endian into the hex string reads back as its value. */
  lemma FieldOfConfig(b: seq<Byte>, rest: string, k: nat, n: nat, v: nat)
    requires k + n <= |b| && v < Pow256(n) && b[k..k + n] == ToLittleEndian(v, n)
    ensures Field(HexString(b, true) + rest, 2 * k, n) == Some(v)
  {
    LittleEndianRoundTrip(v, n);
    FieldOfHex(b, rest, k, n);
  }

  // ---------------------------------------------------------------------
  // The video descriptor and the media stream source

  /** The dimension reported to the video descriptor: rounded down to even. */
  function EvenDown(n: nat): (r: nat)
    ensures r % 2 == 0 && r <= n && n < r + 2
  {
    n - n % 2
  }

  datatype VideoSubtype = HevcSubtype | H264Subtype

  /** CreateVideoEncodingProperties: HEVC for an HEVC stream, H.264 for anything else. */
  function VideoSubtypeOf(codec: FlvPlayer.VideoCodec): (r: VideoSubtype)
    ensures r == HevcSubtype <==> codec == FlvPlayer.Hevc
  {
    match codec
    case Hevc => HevcSubtype
    case _ => H264Subtype
  }

  /** What the new MediaStreamSource is given. */
  datatype Description = Description(
    audio: AudioProperties,
    video: VideoSubtype,
    width: nat,
    height: nat,
    canSeek: bool,
    duration: Option<int>)

  /**
   * create_from_read_stream_proxy_async after open: a failed open fails the
   * creation, and so does private data the audio properties cannot be read
   * from. `width`, `height` and `durationTicks` are the numbers std::stoul
   * and std::stoll read from the "Width", "Height" and "Duration" strings;
   * the duration is set only when the information has one.
   */
  function Describe(info: Option<FlvPlayer.VideoInfo>, codec: FlvPlayer.VideoCodec,
                    width: nat, height: nat, durationTicks: int): (r: Option<Description>)
    ensures r.Some? <==> info.Some? && AudioPropertiesOf(info.value.audioCodecPrivateData).Some?
    ensures r.Some? ==> r.value.audio == AudioPropertiesOf(info.value.audioCodecPrivateData).value
    ensures r.Some? ==> (r.value.video == HevcSubtype <==> codec == FlvPlayer.Hevc)
    ensures r.Some? ==> r.value.width % 2 == 0 && r.value.width <= width < r.value.width + 2
    ensures r.Some? ==> r.value.height % 2 == 0 && r.value.height <= height < r.value.height + 2
    ensures r.Some? ==> r.value.canSeek == info.value.canSeek
    ensures r.Some? ==> r.value.duration == if info.value.duration.Some? then Some(durationTicks) else None
  {
    if info.None? then None
    else
      var audio := AudioPropertiesOf(info.value.audioCodecPrivateData);
      if audio.None? then None
      else Some(Description(audio.value, VideoSubtypeOf(codec), EvenDown(width), EvenDown(height),
                            info.value.canSeek, if info.value.duration.Some? then Some(durationTicks) else None))
  }

  // ---------------------------------------------------------------------
  // Sample payloads

  /**
   * What a key frame's payload starts with: the VPS (for HEVC only), the
   * SPS and the PPS, each one that is not empty behind a start code.
   */
  function KeyframePrefix(codec: FlvPlayer.VideoCodec, vps: seq<Byte>, sps: seq<Byte>, pps: seq<Byte>): seq<Byte>
  {
    (if codec == FlvPlayer.Hevc && vps != [] then [0, 0, 1] + vps else [])
    + (if sps != [] then [0, 0, 1] + sps else [])
    + (if pps != [] then [0, 0, 1] + pps else [])
  }

  /** The parameter sets a key frame carries, in their order. */
  function PresentSets(codec: FlvPlayer.VideoCodec, vps: seq<Byte>, sps: seq<Byte>, pps: seq<Byte>): seq<seq<Byte>>
  {
    (if codec == FlvPlayer.Hevc && vps != [] then [vps] else [])
    + (if sps != [] then [sps] else [])
    + (if pps != [] then [pps] else [])
  }

  /** The payload of a video sample: the key frame prefix on key frames only, then the data. */
  function VideoPayload(sample: VideoSample, codec: FlvPlayer.VideoCodec, vps: seq<Byte>, sps: seq<Byte>,
                        pps: seq<Byte>): seq<Byte>
  {
    (if sample.isKeyFrame then KeyframePrefix(codec, vps, sps, pps) else []) + sample.data
  }

  lemma {:induction false} AnnexBConcat(a: seq<seq<Byte>>, b: seq<seq<Byte>>)
    ensures AnnexB(a + b) == AnnexB(a) + AnnexB(b)
    decreases |a|
  {
    if |a| == 0 {
      assert a + b == b;
    } else {
      assert (a + b)[1..] == a[1..] + b;
      AnnexBConcat(a[1..], b);
    }
  }

  lemma AnnexBOne(u: seq<Byte>)
    ensures AnnexB([u]) == [0, 0, 1] + u
  {
    assert [u][1..] == [];
  }

  /**
   * A key frame whose data is an Annex B stream of NAL units (as the parser
   * delivers it) gets a payload that is one Annex B stream: the parameter
   * sets present, then the frame's own units.
   */
  lemma KeyframePayloadIsAnnexB(codec: FlvPlayer.VideoCodec, vps: seq<Byte>, sps: seq<Byte>, pps: seq<Byte>,
                                units: seq<seq<Byte>>, dts: int, timestamp: int)
    ensures VideoPayload(VideoSample(dts, timestamp, true, AnnexB(units)), codec, vps, sps, pps)
            == AnnexB(PresentSets(codec, vps, sps, pps) + units)
  {
    var v := if codec == FlvPlayer.Hevc && vps != [] then [vps] else [];
    var s := if sps != [] then [sps] else [];
    var p := if pps != [] then [pps] else [];
    AnnexBOne(vps);
    AnnexBOne(sps);
    AnnexBOne(pps);
    AnnexBConcat(v, s);
    AnnexBConcat(v + s, p);
    AnnexBConcat(v + s + p, units);
    assert AnnexB(v + s + p) == KeyframePrefix(codec, vps, sps, pps);
  }

  /** The DataWriter loop that writes `bytes` one at a time after what is written. */
  method WriteBytes(written: seq<Byte>, bytes: seq<Byte>) returns (w: seq<Byte>)
    ensures w == written + bytes
  {
    w := written;
    var i := 0;
    while i < |bytes|
      invariant 0 <= i <= |bytes|
      invariant w == written + bytes[..i]
    {
      w := w + [bytes[i]];
      i := i + 1;
    }
    assert bytes[..i] == bytes;
  }

  /** Lines 175-209 of handle_sample_requested: the bytes of a video sample's buffer. */
  method WriteVideoPayload(sample: VideoSample, codec: FlvPlayer.VideoCodec, vps: seq<Byte>, sps: seq<Byte>,
                           pps: seq<Byte>) returns (payload: seq<Byte>)
    ensures payload == VideoPayload(sample, codec, vps, sps, pps)
  {
    payload := [];
    if sample.isKeyFrame {
      ghost var v := if codec == FlvPlayer.Hevc && vps != [] then [0, 0, 1] + vps else [];
      ghost var s := if sps != [] then [0, 0, 1] + sps else [];
      ghost var p := if pps != [] then [0, 0, 1] + pps else [];
      if codec == FlvPlayer.Hevc {
        if vps != [] {
          payload := payload + [0, 0, 1];
          payload := WriteBytes(payload, vps);
        }
      }
      assert payload == v;
      if sps != [] {
        payload := payload + [0, 0, 1];
        payload := WriteBytes(payload, sps);
      }
      assert payload == v + s;
      if pps != [] {
        payload := payload + [0, 0, 1];
        payload := WriteBytes(payload, pps);
      }
      assert payload == v + s + p == KeyframePrefix(codec, vps, sps, pps);
    }
    payload := WriteBytes(payload, sample.data);
  }

  // ---------------------------------------------------------------------
  // Answering requests

  /** get_sample_error_code */
  datatype SampleErrorCode = EndOfStreamCode | IoErrorCode | ParseErrorCode | CancelCode | OtherCode

  /** What get_audio_sample or get_video_sample ended with. */
  datatype SampleResult<T> = Delivered(sample: T) | Failed(code: SampleErrorCode)

  /** The stream descriptor a request is for. */
  datatype StreamKind = AudioStream | VideoStream | OtherStream

  /** A MediaStreamSample: its buffer, its time and, for video, its decoding time and key frame flag. */
  datatype MediaSample = MediaSample(data: seq<Byte>, timestamp: int, decodeTimestamp: Option<int>, keyFrame: Option<bool>)

  /**
   * What a handler does with a request: leaves it alone, answers it with a
   * sample or with no sample (the end of the stream), or reports an error
   * to the source.
   */
  datatype Response = Untouched | Answered(sample: Option<MediaSample>) | ErrorNotified

  /**
   * The catch clauses of handle_sample_requested: the end of the stream is
   * answered with no sample, a cancelled request is left unanswered, and
   * every other error is reported.
   */
  function ErrorResponse(code: SampleErrorCode): (r: Response)
    ensures r == Answered(None) <==> code == EndOfStreamCode
    ensures r == Untouched <==> code == CancelCode
    ensures r == ErrorNotified <==> code != EndOfStreamCode && code != CancelCode
  {
    match code
    case EndOfStreamCode => Answered(None)
    case CancelCode => Untouched
    case _ => ErrorNotified
  }

  class StreamSource {
    /** player_, cleared by Close */
    var player: FlvPlayer.Player?
    /** whether mss_ is still set */
    var hasSource: bool
    var startingToken: Option<nat>
    var sampleRequestedToken: Option<nat>
    /** The event tokens handed back to the source, in order. */
    var removedTokens: seq<nat>

    /** The tokens are held only while the source is. */
    predicate Valid()
      reads this
    {
      !hasSource ==> startingToken.None? && sampleRequestedToken.None?
    }

    /** The constructor, which subscribes to Starting and SampleRequested and keeps the two tokens. */
    constructor (player: FlvPlayer.Player, startingToken: nat, sampleRequestedToken: nat)
      ensures Valid() && this.player == player && hasSource
      ensures this.startingToken == Some(startingToken) && this.sampleRequestedToken == Some(sampleRequestedToken)
      ensures removedTokens == []
    {
      this.player := player;
      hasSource := true;
      this.startingToken := Some(startingToken);
      this.sampleRequestedToken := Some(sampleRequestedToken);
      removedTokens := [];
    }

    /**
     * Close (also run by the destructor): the player is detached and then
     * closed, and each subscription still held is removed once; afterwards
     * there is nothing left to close.
     */
    method Close()
      requires Valid() && (player != null ==> player.Valid())
      modifies this, player
      ensures Valid() && player == null && !hasSource && startingToken.None? && sampleRequestedToken.None?
      ensures old(player) != null ==> old(player).isClosed && old(player).Valid()
      ensures removedTokens == old(removedTokens)
        + (if old(hasSource) && old(startingToken).Some? then [old(startingToken).value] else [])
        + (if old(hasSource) && old(sampleRequestedToken).Some? then [old(sampleRequestedToken).value] else [])
    {
      if player != null {
        var p := player;
        player := null;
        p.Close();
      }
      if hasSource {
        if startingToken.Some? {
          removedTokens := removedTokens + [startingToken.value];
          startingToken := None;
        }
        if sampleRequestedToken.Some? {
          removedTokens := removedTokens + [sampleRequestedToken.value];
          sampleRequestedToken := None;
        }
        hasSource := false;
      }
    }

    /**
     * handle_starting: with a start position and a player, seek there and
     * start at the key frame the seek found; `seekResult` is that time, or
     * None when the seek failed, which is ignored.
     */
    method HandleStarting(startPosition: Option<int>, seekResult: Option<int>) returns (actualStart: Option<int>)
      ensures actualStart.Some? <==> startPosition.Some? && player != null && seekResult.Some?
      ensures actualStart.Some? ==> actualStart == seekResult
    {
      actualStart := None;
      if startPosition.Some? && player != null {
        if seekResult.Some? {
          actualStart := Some(seekResult.value);
        }
      }
    }

    /**
     * handle_sample_requested: without a player, or for a stream that is
     * neither audio nor video, the request is left alone. An audio sample is
     * its data at its time; a video sample also carries its decoding time
     * and key frame flag, and a key frame's buffer starts with the parameter
     * sets the player holds. A failed request is answered by ErrorResponse.
     */
    method HandleSampleRequested(kind: StreamKind, audio: SampleResult<AudioSample>, video: SampleResult<VideoSample>)
      returns (response: Response)
      ensures player == null || kind == OtherStream ==> response == Untouched
      ensures player != null && kind == AudioStream && audio.Failed? ==> response == ErrorResponse(audio.code)
      ensures player != null && kind == VideoStream && video.Failed? ==> response == ErrorResponse(video.code)
      ensures player != null && kind == AudioStream && audio.Delivered? ==>
        response == Answered(Some(MediaSample(audio.sample.data, audio.sample.timestamp, None, None)))
      ensures player != null && kind == VideoStream && video.Delivered? ==>
        var s := player.session;
        response == Answered(Some(MediaSample(VideoPayload(video.sample, s.videoCodec, s.vps, s.sps, s.pps),
                                              video.sample.timestamp, Some(video.sample.dts),
                                              Some(video.sample.isKeyFrame))))
    {
      response := Untouched;
      var p := player;
      if p == null {
        return;
      }
      if kind == AudioStream {
        if audio.Failed? {
          response := ErrorResponse(audio.code);
        } else {
          var data := WriteBytes([], audio.sample.data);
          assert data == audio.sample.data;
          response := Answered(Some(MediaSample(data, audio.sample.timestamp, None, None)));
        }
      } else if kind == VideoStream {
        if video.Failed? {
          response := ErrorResponse(video.code);
        } else {
          var sample := video.sample;
          var s := p.session;
          var data := WriteVideoPayload(sample, s.videoCodec, s.vps, s.sps, s.pps);
          response := Answered(Some(MediaSample(data, sample.timestamp, Some(sample.dts), Some(sample.isKeyFrame))));
        }
      }
    }
  }

  /** Closing a source twice removes each subscription once and closes its player. */
  method CloseTwice() returns (removed: seq<nat>, playerClosed: bool, detached: bool)
    ensures removed == [1, 2] && playerClosed && detached
  {
    var p := new FlvPlayer.Player(false);
    var source := new StreamSource(p, 1, 2);
    source.Close();
    source.Close();
    removed := source.removedTokens;
    playerClosed := p.isClosed;
    detached := source.player == null && !source.hasSource;
  }
}
