// The older threaded engine (dawn_player/flv_player.cpp). Opening reads one
// buffer from the stream, parses the header and the tags in it and checks
// that the metadata and both codec configurations were found. Afterwards a
// producer thread keeps the two sample queues filled, and each request for a
// sample adds to a packed 32-bit counter of pending requests: audio requests
// count in the low 16 bits, video requests in the high 16 bits. The request
// that finds the counter at zero starts a worker, and the worker serves
// requests one at a time until its own decrement brings the counter back to
// zero.
//
// Threads, locks and condition variables are not modelled: a wait is a
// precondition (the worker runs a step once its wait predicate holds), and
// an atomic read-modify-write of the counter is one method.

module ThreadedPlayer {
  import opened Bytes
  import opened Wrappers
  import opened AmfTypes
  import opened SampleTypes
  import opened FlvTags
  import opened FlvParser
  import opened Hex
  import FlvPlayer

  // ---------------------------------------------------------------------
  // The packed counter of pending requests

  const Uint32Modulus: nat := 0x1_0000_0000

  datatype SampleType = Audio | Video

  /** What get_sample_async adds and the worker subtracts for one request. */
  function Unit(t: SampleType): nat
  {
    if t == Audio then 1 else 0x1_0000
  }

  /** pending_cnt & 0xffff: the audio requests not yet served. */
  function AudioPending(cnt: nat): nat
  {
    cnt % 0x1_0000
  }

  /** The video requests not yet served; pending_cnt & 0xffff0000 is zero exactly when this is. */
  function VideoPending(cnt: nat): nat
  {
    cnt / 0x1_0000
  }

  /** The counter holding `audio` audio and `video` video requests. */
  function Packed(audio: nat, video: nat): nat
  {
    video * 0x1_0000 + audio
  }

  /** Each half of the counter reads back the number it was packed with. */
  lemma PackedFields(audio: nat, video: nat)
    requires audio < 0x1_0000 && video < 0x1_0000
    ensures Packed(audio, video) < Uint32Modulus
    ensures AudioPending(Packed(audio, video)) == audio && VideoPending(Packed(audio, video)) == video
  {
    DivModUnique(Packed(audio, video), video, audio, 0x1_0000);
  }

  /**
   * One more request, added with 32-bit wrap-around, counts in its own half
   * as long as that half has room.
   */
  lemma RequestCounts(audio: nat, video: nat, t: SampleType)
    requires audio < 0x1_0000 && video < 0x1_0000
    requires t == Audio ==> audio + 1 < 0x1_0000
    requires t == Video ==> video + 1 < 0x1_0000
    ensures (Packed(audio, video) + Unit(t)) % Uint32Modulus
            == if t == Audio then Packed(audio + 1, video) else Packed(audio, video + 1)
  {
    var next := if t == Audio then Packed(audio + 1, video) else Packed(audio, video + 1);
    assert Packed(audio, video) + Unit(t) == next;
    PackedFields(if t == Audio then audio + 1 else audio, if t == Audio then video else video + 1);
    DivModUnique(next, 0, next, Uint32Modulus);
  }

  /** Serving a request of a type that has one pending takes one from its half and nothing from the other. */
  lemma ServeCounts(cnt: nat, t: SampleType)
    requires cnt < Uint32Modulus
    requires t == Audio ==> AudioPending(cnt) > 0
    requires t == Video ==> VideoPending(cnt) > 0
    ensures cnt >= Unit(t)
    ensures (cnt + Uint32Modulus - Unit(t)) % Uint32Modulus == cnt - Unit(t)
    ensures AudioPending(cnt - Unit(t)) == AudioPending(cnt) - (if t == Audio then 1 else 0)
    ensures VideoPending(cnt - Unit(t)) == VideoPending(cnt) - (if t == Video then 1 else 0)
  {
    var a, v := AudioPending(cnt), VideoPending(cnt);
    assert cnt == Packed(a, v);
    var a', v' := if t == Audio then a - 1 else a, if t == Video then v - 1 else v;
    assert cnt - Unit(t) == Packed(a', v');
    PackedFields(a', v');
    DivModUnique(cnt + Uint32Modulus - Unit(t), 1, cnt - Unit(t), Uint32Modulus);
  }

  // ---------------------------------------------------------------------
  // The worker's wait predicate and its choice

  /**
   * The predicate the worker waits on: there is a sample to hand out, and
   * if one kind has no pending request the other kind's queue has a sample.
   */
  predicate Ready(cnt: nat, audioQueue: seq<AudioSample>, videoQueue: seq<VideoSample>): (r: bool)
    ensures r ==> audioQueue != [] || videoQueue != []
    ensures AudioPending(cnt) > 0 || VideoPending(cnt) > 0 ==>
      (r <==> (audioQueue != [] && AudioPending(cnt) > 0) || (videoQueue != [] && VideoPending(cnt) > 0))
  {
    && !(audioQueue == [] && videoQueue == [])
    && !(AudioPending(cnt) == 0 && videoQueue == [])
    && !(VideoPending(cnt) == 0 && audioQueue == [])
  }

  /**
   * The kind of sample the worker hands out: video when there is no audio
   * sample or no audio request, audio when there is no video sample or no
   * video request, and otherwise the earlier of the two queue heads (video
   * on a tie). Once the wait is over and a request is pending, the chosen
   * queue has a sample and the chosen kind has a request, so the unchecked
   * pop and the decrement are safe.
   */
  function Choose(cnt: nat, audioQueue: seq<AudioSample>, videoQueue: seq<VideoSample>): (t: SampleType)
    ensures t == Audio ==> audioQueue != [] && AudioPending(cnt) > 0
    ensures Ready(cnt, audioQueue, videoQueue) && cnt != 0 && t == Video ==>
      videoQueue != [] && VideoPending(cnt) > 0
    ensures audioQueue != [] && AudioPending(cnt) > 0 && videoQueue != [] && VideoPending(cnt) > 0 ==>
      (t == Audio <==> audioQueue[0].timestamp < videoQueue[0].timestamp)
  {
    if audioQueue == [] || AudioPending(cnt) == 0 then Video
    else if videoQueue == [] || VideoPending(cnt) == 0 then Audio
    else if audioQueue[0].timestamp < videoQueue[0].timestamp then Audio
    else Video
  }

  /** The sample_info map a served request completes with: the type, "Timestamp" and "Data". */
  datatype SampleInfo = SampleInfo(kind: SampleType, timestamp: int, data: seq<Byte>)

  // ---------------------------------------------------------------------
  // The callbacks

  /** The fields of flv_player the parser callbacks read and write. */
  datatype Session = Session(
    metaData: Option<seq<Prop>>,
    isVideoCfgRead: bool,
    isAudioCfgRead: bool,
    audioCodecPrivateData: string,
    videoCodecPrivateData: string,
    audioQueue: seq<AudioSample>,
    videoQueue: seq<VideoSample>)

  const InitialSession := Session(None, false, false, [], [], [], [])

  /**
   * on_script_tag: script tags other than "onMetaData" are accepted and
   * ignored; an "onMetaData" tag replaces the metadata when its value is an
   * ECMA array and is refused otherwise.
   */
  function OnScriptTag(s: Session, name: Value, value: Value): (r: (bool, Session))
    ensures !r.0 <==> name == Str(FlvPlayer.OnMetaDataName) && !value.EcmaArray?
    ensures r.1.metaData == if name == Str(FlvPlayer.OnMetaDataName) && value.EcmaArray? then Some(value.entries)
                            else s.metaData
    ensures r.1 == s.(metaData := r.1.metaData)
  {
    if !name.Str? || name.chars != FlvPlayer.OnMetaDataName then (true, s)
    else if !value.EcmaArray? then (false, s)
    else (true, s.(metaData := Some(value.entries)))
  }

  /**
   * What on_avc_decoder_configuration_record appends to the video private
   * data: a start code and the SPS, then a start code and the PPS, each
   * piece in upper-case hex. The result is the hex of the two parameter sets
   * in Annex B form.
   */
  function AvcPrivateData(sps: seq<Byte>, pps: seq<Byte>): (r: string)
    ensures r == HexString(AnnexB([sps, pps]), true)
  {
    var prefix: seq<Byte> := [0x00, 0x00, 0x01];
    assert AnnexB([sps, pps]) == prefix + sps + prefix + pps by {
      assert [sps, pps][1..] == [pps];
      assert AnnexB([pps]) == prefix + pps + AnnexB([]);
    }
    HexStringAppend(prefix + sps + prefix, pps, true);
    HexStringAppend(prefix + sps, prefix, true);
    HexStringAppend(prefix, sps, true);
    HexString(prefix, true) + HexString(sps, true) + HexString(prefix, true) + HexString(pps, true)
  }

  /** The callbacks the engine registers, as one step over its session. */
  function Dispatch(s: Session, e: Event): (r: (bool, Session))
    ensures e.AudioSampleEvent? ==> (r.0 <==> s.isAudioCfgRead)
    ensures e.VideoSampleEvent? ==> (r.0 <==> s.isVideoCfgRead)
    ensures e.AudioSampleEvent? ==> r.1.audioQueue == s.audioQueue + (if r.0 then [e.audio] else [])
    ensures e.VideoSampleEvent? ==> r.1.videoQueue == s.videoQueue + (if r.0 then [e.video] else [])
    ensures e.AudioConfigEvent? ==> r.0 && r.1.isAudioCfgRead
    ensures e.AudioConfigEvent? ==>
      r.1.audioCodecPrivateData == s.audioCodecPrivateData + FlvPlayer.AudioConfigHex(e.config)
    ensures e.AvcConfigEvent? ==> r.0 && r.1.isVideoCfgRead
    ensures e.AvcConfigEvent? ==>
      r.1.videoCodecPrivateData == s.videoCodecPrivateData + HexString(AnnexB([e.sps, e.pps]), true)
    ensures e.ScriptTagEvent? ==> r == OnScriptTag(s, e.name, e.value)
    ensures Grows(s, r.1)
  {
    match e
    case ScriptTagEvent(name, value) => OnScriptTag(s, name, value)
    case AudioConfigEvent(config) =>
      (true, s.(audioCodecPrivateData := s.audioCodecPrivateData + FlvPlayer.AudioConfigHex(config),
                isAudioCfgRead := true))
    case AvcConfigEvent(sps, pps) =>
      (true, s.(videoCodecPrivateData := s.videoCodecPrivateData + AvcPrivateData(sps, pps),
                isVideoCfgRead := true))
    case HevcConfigEvent(_, _, _) => (true, s)
    case AudioSampleEvent(sample) =>
      if !s.isAudioCfgRead then (false, s) else (true, s.(audioQueue := s.audioQueue + [sample]))
    case VideoSampleEvent(sample) =>
      if !s.isVideoCfgRead then (false, s) else (true, s.(videoQueue := s.videoQueue + [sample]))
  }

  /**
   * What a session keeps as it handles events: queued samples stay queued in
   * their order, metadata and configuration flags once set stay set, and the
   * private data only grows.
   */
  predicate Grows(a: Session, b: Session)
  {
    && a.audioQueue <= b.audioQueue
    && a.videoQueue <= b.videoQueue
    && (a.metaData.Some? ==> b.metaData.Some?)
    && (a.isAudioCfgRead ==> b.isAudioCfgRead)
    && (a.isVideoCfgRead ==> b.isVideoCfgRead)
    && a.audioCodecPrivateData <= b.audioCodecPrivateData
    && a.videoCodecPrivateData <= b.videoCodecPrivateData
  }

  lemma GrowsTransitive(a: Session, b: Session, c: Session)
    requires Grows(a, b) && Grows(b, c)
    ensures Grows(a, c)
  {
  }

  /** Handing a tag's events to the callbacks only grows the session. */
  lemma {:induction false} DeliverGrows(events: seq<Event>, s: Session)
    ensures Grows(s, Deliver(events, s, Dispatch).1)
    decreases |events|
  {
    if |events| > 0 {
      var (accepted, s1) := Dispatch(s, events[0]);
      if accepted {
        DeliverGrows(events[1..], s1);
        GrowsTransitive(s, s1, Deliver(events[1..], s1, Dispatch).1);
      }
    }
  }

  /** A whole parse_flv_tags run only grows the session, whatever it returns. */
  lemma {:induction false} ParseGrows(data: seq<Byte>, offset: nat, lengthSize: nat, cb: Callbacks, s: Session)
    requires ValidLengthSize(lengthSize)
    ensures Grows(s, ParseTagsFrom(data, offset, lengthSize, cb, s, Dispatch).state)
    decreases |data| - offset
  {
    match Frame(data, offset)
    case Incomplete =>
    case StreamIdError =>
    case PreviousTagSizeError =>
    case Whole(header) =>
      var outcome := TagBody(data, header, lengthSize, cb);
      var (accepted, s1) := Deliver(outcome.events, s, Dispatch);
      DeliverGrows(outcome.events, s);
      if accepted && !outcome.failed {
        ParseGrows(data, NextTag(header), outcome.lengthSize, cb, s1);
        GrowsTransitive(s, s1, ParseTagsFrom(data, NextTag(header), outcome.lengthSize, cb, s1, Dispatch).state);
      }
  }

  /** The five callbacks register_callback_functions sets; this engine has no HEVC callback. */
  const OpenCallbacks := Callbacks(true, true, true, false, true, true)

  // ---------------------------------------------------------------------
  // Opening

  /** The media_info map do_open completes with; CanSeek and VideoFourCC are fixed. */
  datatype MediaInfo = MediaInfo(
    duration: seq<Byte>,
    canSeek: bool,
    audioCodecPrivateData: string,
    height: seq<Byte>,
    width: seq<Byte>,
    videoFourCC: string,
    videoCodecPrivateData: string)

  predicate Complete(s: Session)
  {
    s.metaData.Some? && s.isAudioCfgRead && s.isVideoCfgRead
  }

  /**
   * The checks do_open makes once the first buffer is parsed: the metadata
   * and both configurations must have been seen, and the metadata must hold
   * a duration, a width and a height, each a number. The stream is never
   * reported seekable and the video is always H.264.
   */
  function MediaInfoOf(s: Session): (r: Option<MediaInfo>)
    ensures r.Some? <==> Complete(s)
                         && FlvPlayer.NumberProperty(s.metaData.value, FlvPlayer.DurationName).Some?
                         && FlvPlayer.NumberProperty(s.metaData.value, FlvPlayer.WidthName).Some?
                         && FlvPlayer.NumberProperty(s.metaData.value, FlvPlayer.HeightName).Some?
    ensures r.Some? ==> !r.value.canSeek && r.value.videoFourCC == "H264"
    ensures r.Some? ==> r.value.audioCodecPrivateData == s.audioCodecPrivateData
                        && r.value.videoCodecPrivateData == s.videoCodecPrivateData
    ensures r.Some? ==> r.value.duration == FlvPlayer.NumberProperty(s.metaData.value, FlvPlayer.DurationName).value
                        && r.value.width == FlvPlayer.NumberProperty(s.metaData.value, FlvPlayer.WidthName).value
                        && r.value.height == FlvPlayer.NumberProperty(s.metaData.value, FlvPlayer.HeightName).value
  {
    if !Complete(s) then None
    else
      var duration := FlvPlayer.NumberProperty(s.metaData.value, FlvPlayer.DurationName);
      var width := FlvPlayer.NumberProperty(s.metaData.value, FlvPlayer.WidthName);
      var height := FlvPlayer.NumberProperty(s.metaData.value, FlvPlayer.HeightName);
      if duration.None? || width.None? || height.None? then None
      else Some(MediaInfo(duration.value, false, s.audioCodecPrivateData, height.value, width.value,
                          "H264", s.videoCodecPrivateData))
  }

  // ---------------------------------------------------------------------
  // The engine

  class Engine {
    const parser: Parser
    var readBuffer: seq<Byte>
    var session: Session
    /** pending_sample_cnt */
    var pending: nat

    predicate Valid()
      reads this, parser
    {
      parser.Valid() && pending < Uint32Modulus
    }

    constructor ()
      ensures Valid() && fresh(parser)
      ensures parser.lengthSize == 0 && parser.callbacks == NoCallbacks
      ensures readBuffer == [] && session == InitialSession && pending == 0
    {
      parser := new Parser();
      readBuffer := [];
      session := InitialSession;
      pending := 0;
    }

    /** register_callback_functions */
    method RegisterCallbacks()
      modifies parser
      ensures parser.callbacks == OpenCallbacks.(hevcConfig := old(parser.callbacks.hevcConfig))
      ensures parser.lengthSize == old(parser.lengthSize)
    {
      parser.callbacks := parser.callbacks.(scriptTag := true, avcConfig := true, audioConfig := true,
                                            audioSample := true, videoSample := true);
    }

    /** unregister_callback_functions */
    method UnregisterCallbacks()
      modifies parser
      ensures parser.callbacks == NoCallbacks.(hevcConfig := old(parser.callbacks.hevcConfig))
      ensures parser.lengthSize == old(parser.lengthSize)
    {
      parser.callbacks := parser.callbacks.(scriptTag := false, avcConfig := false, audioConfig := false,
                                            audioSample := false, videoSample := false);
    }

    /**
     * do_open, given the bytes the single first read returned. Fewer than 13
     * bytes or a bad header fail at once. Otherwise the tags after the 13
     * bytes of header and first previous-tag-size are parsed with the
     * callbacks set (whatever the parse returns), and the open fails unless
     * MediaInfoOf accepts the resulting session; on success the header and
     * the consumed tags are dropped from the buffer.
     */
    method Open(bytes: seq<Byte>) returns (r: Option<MediaInfo>)
      requires Valid() && parser.callbacks == NoCallbacks
      modifies this, parser
      ensures Valid() && parser.callbacks == NoCallbacks && pending == old(pending)
      ensures |bytes| < 13 || ParseHeader(bytes).0 != ParseResult.Ok ==> r.None? && session == old(session)
      ensures |bytes| >= 13 && ParseHeader(bytes).0 == ParseResult.Ok ==>
        var t := ParseTagsFrom(bytes[13..], 0, old(parser.lengthSize), OpenCallbacks, old(session), Dispatch);
        && session == t.state && parser.lengthSize == t.lengthSize
        && r == MediaInfoOf(t.state)
        && (Complete(t.state) ==> 13 + t.consumed <= |bytes| && readBuffer == bytes[13 + t.consumed..])
    {
      r := None;
      if |bytes| < 13 {
        return;
      }
      readBuffer := bytes;
      var header, _ := parser.ParseFlvHeader(readBuffer);
      if header != ParseResult.Ok {
        return;
      }
      var consumed := ParseOpeningTags(bytes[13..]);
      if !Complete(session) {
        return;
      }
      readBuffer := readBuffer[13 + consumed..];
      r := MediaInfoOf(session);
    }

    /** Lines 68-70 of do_open: parse the tags with the callbacks set, ignoring the result. */
    method ParseOpeningTags(data: seq<Byte>) returns (consumed: nat)
      requires Valid() && parser.callbacks == NoCallbacks
      modifies this, parser
      ensures Valid() && parser.callbacks == NoCallbacks
      ensures pending == old(pending) && readBuffer == old(readBuffer)
      ensures var t := ParseTagsFrom(data, 0, old(parser.lengthSize), OpenCallbacks, old(session), Dispatch);
        session == t.state && parser.lengthSize == t.lengthSize && consumed == t.consumed
      ensures consumed <= |data|
    {
      RegisterCallbacks();
      var _, c, s := parser.ParseTags(data, session, Dispatch);
      session := s;
      consumed := c;
      UnregisterCallbacks();
      ConsumedInside(data, 0, old(parser.lengthSize), OpenCallbacks, old(session), Dispatch);
    }

    /**
     * get_sample_async: count the request in the packed counter (with 32-bit
     * wrap-around); the request that finds it at zero starts a worker.
     */
    method GetSampleAsync(t: SampleType) returns (startsWorker: bool)
      requires Valid()
      modifies this
      ensures Valid()
      ensures pending == (old(pending) + Unit(t)) % Uint32Modulus
      ensures startsWorker <==> old(pending) == 0
      ensures readBuffer == old(readBuffer) && session == old(session)
    {
      var previous := pending;
      pending := (pending + Unit(t)) % Uint32Modulus;
      startsWorker := previous == 0;
    }

    /**
     * One round of do_get_sample once its wait is over: hand out the head of
     * the chosen queue and take the served request off the counter. The
     * worker goes on while the counter is not back at zero.
     */
    method ServeOne() returns (info: SampleInfo, more: bool)
      requires Valid() && pending != 0 && Ready(pending, session.audioQueue, session.videoQueue)
      modifies this
      ensures Valid()
      ensures info.kind == Choose(old(pending), old(session.audioQueue), old(session.videoQueue))
      ensures info.kind == Audio ==>
        && old(session.audioQueue) != []
        && info == SampleInfo(Audio, old(session.audioQueue)[0].timestamp, old(session.audioQueue)[0].data)
        && session == old(session).(audioQueue := old(session.audioQueue)[1..])
      ensures info.kind == Video ==>
        && old(session.videoQueue) != []
        && info == SampleInfo(Video, old(session.videoQueue)[0].timestamp, old(session.videoQueue)[0].data)
        && session == old(session).(videoQueue := old(session.videoQueue)[1..])
      ensures pending == old(pending) - Unit(info.kind)
      ensures AudioPending(pending) == AudioPending(old(pending)) - (if info.kind == Audio then 1 else 0)
      ensures VideoPending(pending) == VideoPending(old(pending)) - (if info.kind == Video then 1 else 0)
      ensures more <==> pending != 0
      ensures readBuffer == old(readBuffer)
    {
      var t := Choose(pending, session.audioQueue, session.videoQueue);
      if t == Audio {
        var sample := session.audioQueue[0];
        session := session.(audioQueue := session.audioQueue[1..]);
        info := SampleInfo(Audio, sample.timestamp, sample.data);
      } else {
        var sample := session.videoQueue[0];
        session := session.(videoQueue := session.videoQueue[1..]);
        info := SampleInfo(Video, sample.timestamp, sample.data);
      }
      var dec := Unit(t);
      ServeCounts(pending, t);
      pending := (pending + Uint32Modulus - dec) % Uint32Modulus;
      more := pending != 0;
    }
  }
}
