// flv_player (core/dawn_player/flv_player.cpp): the engine between the FLV
// parser and a media pipeline. Opening reads the header and then tags until
// the metadata and both codec configurations have been seen; afterwards the
// parser only delivers samples, which wait in two FIFO queues until the
// pipeline asks for them. Requests, reads and seeks are coroutines; every
// `co_await` is a step boundary here, so each coroutine becomes one method
// per step: a request decides what to do with the state it finds, a read is
// started by a request and completed by `CompleteRead` with what the stream
// returned, and a waiting coroutine is an entry of `waiters` that the
// completion of the read in progress releases.
//
// The callbacks the player registers with the parser change the part of
// the player kept in a `Session`; `Dispatch` is that set of callbacks as one
// step function over a session.

module FlvPlayer {
  import opened Bytes
  import opened Wrappers
  import opened AmfTypes
  import opened SampleTypes
  import opened FlvTags
  import opened FlvParser
  import opened Hex

  /** video_codec */
  datatype VideoCodec = UnknownCodec | H264 | Hevc

  /** The fields of flv_player the parser callbacks read and write. */
  datatype Session = Session(
    metaData: Option<seq<Prop>>,
    isVideoCfgRead: bool,
    isAudioCfgRead: bool,
    audioCodecPrivateData: string,
    vps: seq<Byte>,
    sps: seq<Byte>,
    pps: seq<Byte>,
    audioQueue: seq<AudioSample>,
    videoQueue: seq<VideoSample>,
    firstSampleTimestamp: Option<int>,
    videoCodec: VideoCodec)

  const InitialSession := Session(None, false, false, [], [], [], [], [], [], None, UnknownCodec)

  /** The bytes of an ASCII string, as the AMF strings of the metadata hold them. */
  function AsciiBytes(s: string): (r: seq<Byte>)
    ensures |r| == |s|
  {
    seq(|s|, i requires 0 <= i < |s| => (s[i] as int) % 256)
  }

  const OnMetaDataName := AsciiBytes("onMetaData")

  // ---------------------------------------------------------------------
  // The callbacks

  /**
   * on_script_tag: the first "onMetaData" tag whose value is an ECMA array
   * or an object becomes the metadata (an object through to_ecma_array, which
   * keeps its pairs and their order); any other value of that tag refuses the
   * tag. Other script tags, and every script tag once the metadata is known,
   * are accepted and ignored.
   */
  function OnScriptTag(s: Session, name: Value, value: Value): (r: (bool, Session))
    ensures s.metaData.Some? ==> r == (true, s)
    ensures !r.0 <==> s.metaData.None? && name == Str(OnMetaDataName) && !value.EcmaArray? && !value.Object?
    ensures r.1.metaData.Some? <==>
      s.metaData.Some? || (name == Str(OnMetaDataName) && (value.EcmaArray? || value.Object?))
    ensures s.metaData.None? && name == Str(OnMetaDataName) && value.EcmaArray? ==> r.1.metaData == Some(value.entries)
    ensures s.metaData.None? && name == Str(OnMetaDataName) && value.Object? ==> r.1.metaData == Some(value.props)
    ensures r.1 == s.(metaData := r.1.metaData)
  {
    if s.metaData.Some? then (true, s)
    else if !name.Str? || name.chars != OnMetaDataName then (true, s)
    else if value.EcmaArray? then (true, s.(metaData := Some(value.entries)))
    else if value.Object? then (true, s.(metaData := Some(value.props)))
    else (false, s)
  }

  /**
   * The 18 bytes on_audio_specific_config dumps: the WAVEFORMATEX fields in
   * their declared widths (16, 16, 32, 32, 16, 16 and 16 bits), each stored
   * little-endian, as on the hosts the player runs on.
   */
  function AudioConfigBytes(c: AudioConfig): (r: seq<Byte>)
    ensures |r| == 18
  {
    ToLittleEndian(c.formatTag, 2) + ToLittleEndian(c.channels, 2)
    + ToLittleEndian(c.samplesPerSecond, 4) + ToLittleEndian(c.averageBytesPerSecond, 4)
    + ToLittleEndian(c.blockAlign, 2) + ToLittleEndian(c.bitsPerSample, 2) + ToLittleEndian(c.size, 2)
  }

  /** The 36 upper-case hex digits on_audio_specific_config appends to the private data. */
  function AudioConfigHex(c: AudioConfig): (r: string)
    ensures |r| == 36
  {
    HexString(AudioConfigBytes(c), true)
  }

  /**
   * The callbacks the player registers, as one step over its session. The
   * codec configurations are recorded and always accepted; a sample is
   * refused until the configuration of its stream has been read, and the
   * first accepted sample fixes first_sample_timestamp.
   */
  function Dispatch(s: Session, e: Event): (r: (bool, Session))
    ensures e.AudioSampleEvent? ==> (r.0 <==> s.isAudioCfgRead)
    ensures e.VideoSampleEvent? ==> (r.0 <==> s.isVideoCfgRead)
    ensures e.AudioSampleEvent? && r.0 ==> r.1.audioQueue == s.audioQueue + [e.audio]
    ensures e.VideoSampleEvent? && r.0 ==> r.1.videoQueue == s.videoQueue + [e.video]
    ensures e.AudioConfigEvent? ==> r.0 && r.1.isAudioCfgRead
    ensures e.AudioConfigEvent? ==> r.1.audioCodecPrivateData == s.audioCodecPrivateData + AudioConfigHex(e.config)
    ensures e.AvcConfigEvent? ==> r.0 && r.1.isVideoCfgRead && r.1.videoCodec == H264
    ensures e.AvcConfigEvent? ==> r.1.sps == e.sps && r.1.pps == e.pps && r.1.vps == s.vps
    ensures e.HevcConfigEvent? ==> r.0 && r.1.isVideoCfgRead && r.1.videoCodec == Hevc
    ensures e.HevcConfigEvent? ==> r.1.vps == e.vps && r.1.sps == e.sps && r.1.pps == e.pps
    ensures (e.AudioSampleEvent? || e.VideoSampleEvent?) && r.0 && s.firstSampleTimestamp.None? ==>
      r.1.firstSampleTimestamp == Some(if e.AudioSampleEvent? then e.audio.timestamp else e.video.timestamp)
    ensures Grows(s, r.1)
  {
    match e
    case ScriptTagEvent(name, value) => OnScriptTag(s, name, value)
    case AudioConfigEvent(config) =>
      (true, s.(audioCodecPrivateData := s.audioCodecPrivateData + AudioConfigHex(config), isAudioCfgRead := true))
    case AvcConfigEvent(sps, pps) =>
      (true, s.(videoCodec := H264, sps := sps, pps := pps, isVideoCfgRead := true))
    case HevcConfigEvent(vps, sps, pps) =>
      (true, s.(videoCodec := Hevc, vps := vps, sps := sps, pps := pps, isVideoCfgRead := true))
    case AudioSampleEvent(sample) =>
      if !s.isAudioCfgRead then (false, s)
      else
        var first := if s.firstSampleTimestamp.None? then Some(sample.timestamp) else s.firstSampleTimestamp;
        (true, s.(firstSampleTimestamp := first, audioQueue := s.audioQueue + [sample]))
    case VideoSampleEvent(sample) =>
      if !s.isVideoCfgRead then (false, s)
      else
        var first := if s.firstSampleTimestamp.None? then Some(sample.timestamp) else s.firstSampleTimestamp;
        (true, s.(firstSampleTimestamp := first, videoQueue := s.videoQueue + [sample]))
  }

  /**
   * What a session keeps as it handles events: queued samples stay queued in
   * their order, the first timestamp, the metadata and the configuration
   * flags once set stay set, and the private data only grows.
   */
  predicate Grows(a: Session, b: Session)
  {
    && a.audioQueue <= b.audioQueue
    && a.videoQueue <= b.videoQueue
    && (a.firstSampleTimestamp.Some? ==> b.firstSampleTimestamp == a.firstSampleTimestamp)
    && (a.metaData.Some? ==> b.metaData == a.metaData)
    && (a.isAudioCfgRead ==> b.isAudioCfgRead)
    && (a.isVideoCfgRead ==> b.isVideoCfgRead)
    && a.audioCodecPrivateData <= b.audioCodecPrivateData
  }

  lemma GrowsTransitive(a: Session, b: Session, c: Session)
    requires Grows(a, b) && Grows(b, c)
    ensures Grows(a, c)
  {
  }

  /** Handing a tag's events to the callbacks only grows the session. */
  lemma {:induction false} DeliverGrows(events: seq<Event>, s: Session)
    ensures Grows(s, Deliver(events, s, Dispatch).1)
    decreases |events|
  {
    if |events| > 0 {
      var (accepted, s1) := Dispatch(s, events[0]);
      if accepted {
        DeliverGrows(events[1..], s1);
        GrowsTransitive(s, s1, Deliver(events[1..], s1, Dispatch).1);
      }
    }
  }

  /** A whole parse_flv_tags run only grows the session, whatever it returns. */
  lemma {:induction false} ParseGrows(data: seq<Byte>, offset: nat, lengthSize: nat, cb: Callbacks, s: Session)
    requires ValidLengthSize(lengthSize)
    ensures Grows(s, ParseTagsFrom(data, offset, lengthSize, cb, s, Dispatch).state)
    decreases |data| - offset
  {
    match Frame(data, offset)
    case Incomplete =>
    case StreamIdError =>
    case PreviousTagSizeError =>
    case Whole(header) =>
      var outcome := TagBody(data, header, lengthSize, cb);
      var (accepted, s1) := Deliver(outcome.events, s, Dispatch);
      DeliverGrows(outcome.events, s);
      if accepted && !outcome.failed {
        ParseGrows(data, NextTag(header), outcome.lengthSize, cb, s1);
        GrowsTransitive(s, s1, ParseTagsFrom(data, NextTag(header), outcome.lengthSize, cb, s1, Dispatch).state);
      }
  }

  /**
   * register_callback_functions: every callback is set, or with `sampleOnly`
   * only the two sample callbacks are. All six are assigned, so what was set
   * before does not matter.
   */
  function Registered(sampleOnly: bool): Callbacks
  {
    Callbacks(!sampleOnly, !sampleOnly, !sampleOnly, !sampleOnly, true, true)
  }

  /** Events a parse with only the sample callbacks set can produce. */
  predicate SampleEvent(e: Event)
  {
    e.AudioSampleEvent? || e.VideoSampleEvent?
  }

  /** With only the sample callbacks set, a tag yields nothing but samples. */
  lemma SampleCallbacksYieldSamples(data: seq<Byte>, header: TagHeader, lengthSize: nat)
    requires InBuffer(data, header) && ValidLengthSize(lengthSize)
    ensures forall e <- TagBody(data, header, lengthSize, Registered(true)).events :: SampleEvent(e)
  {
  }

  /** The part of a session samples do not touch. */
  predicate SameConfiguration(a: Session, b: Session)
  {
    && a.metaData == b.metaData
    && a.isAudioCfgRead == b.isAudioCfgRead && a.isVideoCfgRead == b.isVideoCfgRead
    && a.audioCodecPrivateData == b.audioCodecPrivateData
    && a.vps == b.vps && a.sps == b.sps && a.pps == b.pps && a.videoCodec == b.videoCodec
  }

  lemma {:induction false} DeliverSamplesKeepsConfiguration(events: seq<Event>, s: Session)
    requires forall e <- events :: SampleEvent(e)
    ensures SameConfiguration(s, Deliver(events, s, Dispatch).1)
    decreases |events|
  {
    if |events| > 0 {
      assert SampleEvent(events[0]);
      var (accepted, s1) := Dispatch(s, events[0]);
      if accepted {
        DeliverSamplesKeepsConfiguration(events[1..], s1);
      }
    }
  }

  /**
   * read_more_sample parses with the sample callbacks only, so the metadata,
   * the codec configurations and the private data stay as open left them.
   */
  lemma {:induction false} SampleParseKeepsConfiguration(data: seq<Byte>, offset: nat, lengthSize: nat, s: Session)
    requires ValidLengthSize(lengthSize)
    ensures SameConfiguration(s, ParseTagsFrom(data, offset, lengthSize, Registered(true), s, Dispatch).state)
    decreases |data| - offset
  {
    match Frame(data, offset)
    case Incomplete =>
    case StreamIdError =>
    case PreviousTagSizeError =>
    case Whole(header) =>
      var outcome := TagBody(data, header, lengthSize, Registered(true));
      SampleCallbacksYieldSamples(data, header, lengthSize);
      DeliverSamplesKeepsConfiguration(outcome.events, s);
      var (accepted, s1) := Deliver(outcome.events, s, Dispatch);
      if accepted && !outcome.failed {
        SampleParseKeepsConfiguration(data, NextTag(header), outcome.lengthSize, s1);
      }
  }

  // ---------------------------------------------------------------------
  // Sample requests

  /** What one turn of the loop in get_audio_sample / get_video_sample does. */
  datatype Decision =
    | Cancel       // closed: get_sample_error cancel
    | Pop          // hand out the front of the queue
    | EndOfStream  // get_sample_error end_of_stream
    | Other        // get_sample_error other
    | Wait         // a read is in progress: wait for it
    | ReadMore     // start read_more_sample

  /**
   * The checks of a request in their order: closed first, then a queued
   * sample, then end of stream, then an error. Samples already queued are
   * handed out even after the end of the stream or an error.
   */
  function Decide(closed: bool, queued: nat, endOfStream: bool, errorOccurred: bool, reading: bool): (d: Decision)
    ensures d == Cancel <==> closed
    ensures d == Pop <==> !closed && queued > 0
    ensures d == EndOfStream <==> !closed && queued == 0 && endOfStream
    ensures d == Other <==> !closed && queued == 0 && !endOfStream && errorOccurred
    ensures d == Wait <==> !closed && queued == 0 && !endOfStream && !errorOccurred && reading
    ensures d == ReadMore <==> !closed && queued == 0 && !endOfStream && !errorOccurred && !reading
  {
    if closed then Cancel
    else if queued > 0 then Pop
    else if endOfStream then EndOfStream
    else if errorOccurred then Other
    else if reading then Wait
    else ReadMore
  }

  /** What read_some_data got from the stream: a chunk (empty at the end) or an exception. */
  datatype ReadOutcome = Chunk(bytes: seq<Byte>) | ReadFailed

  /**
   * The step of seek that a request to seek reaches. SeekUndefined is the
   * code as written meeting an empty keyframe table, where it dereferences
   * rbegin() of an empty map; SeekRefused is the seek_error the corrected
   * seek throws there instead.
   */
  datatype SeekStep = SeekCanceled | SeekWaiting | Sought(time: int, position: nat) | SeekUndefined | SeekRefused

  // ---------------------------------------------------------------------
  // The keyframe table

  /** One entry of the keyframe table: a time in 100 ns units and a file position. */
  datatype Keyframe = Keyframe(time: int, position: nat)

  /** std::map<double, uint64_t, greater<double>>: one entry per time, latest first. */
  predicate Descending(table: seq<Keyframe>)
  {
    forall i, j :: 0 <= i < j < |table| ==> table[i].time > table[j].time
  }

  predicate HasTime(table: seq<Keyframe>, time: int)
  {
    exists e :: e in table && e.time == time
  }

  /**
   * map::insert: the entry goes where its time belongs, unless that time is
   * already a key, in which case the table stays as it was.
   */
  function Insert(table: seq<Keyframe>, k: Keyframe): (r: seq<Keyframe>)
    requires Descending(table)
    ensures Descending(r)
    ensures forall e :: e in r <==> e in table || (e == k && !HasTime(table, k.time))
  {
    if |table| == 0 then [k]
    else if table[0].time == k.time then table
    else if table[0].time < k.time then
      assert forall e :: e in table ==> e.time <= table[0].time;
      [k] + table
    else
      var rest := Insert(table[1..], k);
      assert HasTime(table, k.time) <==> HasTime(table[1..], k.time) by {
        assert table == [table[0]] + table[1..];
      }
      assert forall e :: e in table[1..] ==> e.time < table[0].time;
      [table[0]] + rest
  }

  /**
   * `k` is the entry lower_bound finds in the table, or the last entry when
   * it finds none: the latest keyframe at or before `t`, or, when every
   * keyframe is later than `t`, the earliest one.
   */
  predicate SeekTarget(table: seq<Keyframe>, t: int, k: Keyframe)
  {
    && k in table
    && (if exists e :: e in table && e.time <= t
        then k.time <= t && forall e :: e in table && e.time <= t ==> e.time <= k.time
        else forall e :: e in table ==> k.time <= e.time)
  }

  /** There is only one such entry. */
  lemma SeekTargetUnique(table: seq<Keyframe>, t: int, a: Keyframe, b: Keyframe)
    requires Descending(table) && SeekTarget(table, t, a) && SeekTarget(table, t, b)
    ensures a == b
  {
    var i :| 0 <= i < |table| && table[i] == a;
    var j :| 0 <= j < |table| && table[j] == b;
    assert a.time == b.time;
  }

  /** map::lower_bound over the table, falling back to its last entry. */
  method LowerBound(table: seq<Keyframe>, t: int) returns (k: Keyframe)
    requires Descending(table) && table != []
    ensures SeekTarget(table, t, k)
  {
    var i := 0;
    while i < |table| && table[i].time > t
      invariant i <= |table|
      invariant forall j :: 0 <= j < i ==> table[j].time > t
    {
      i := i + 1;
    }
    if i < |table| {
      k := table[i];
      forall e | e in table && e.time <= t
        ensures e.time <= k.time
      {
        var j :| 0 <= j < |table| && table[j] == e;
      }
    } else {
      k := table[|table| - 1];
      forall e | e in table
        ensures k.time <= e.time && t < e.time
      {
        var j :| 0 <= j < |table| && table[j] == e;
      }
    }
  }

  // ---------------------------------------------------------------------
  // Opening

  /** open_error_code */
  datatype OpenError = IoError | ParseError

  /** Where a phase of open stands once the stream's answers are used up. */
  datatype Phase = PhaseDone | PhaseFailed(error: OpenError) | PhaseWaiting

  /** A phase's outcome, the answers it used, and the read buffer, length size and session after it. */
  datatype Progress = Progress(phase: Phase, used: nat, buffer: seq<Byte>, lengthSize: nat, session: Session)

  /**
   * parse_header: read until the buffer holds first_tag_offset bytes (an
   * empty read is a parse error, a failed one an I/O error), check the
   * header and drop those bytes.
   */
  function HeaderPhase(buffer: seq<Byte>, answers: seq<ReadOutcome>): (r: (Phase, nat, seq<Byte>))
    ensures r.1 <= |answers|
    decreases |answers|
  {
    if |buffer| >= FirstTagOffset then
      if ParseHeader(buffer).0 != ParseResult.Ok then (PhaseFailed(ParseError), 0, buffer)
      else (PhaseDone, 0, buffer[FirstTagOffset..])
    else if |answers| == 0 then (PhaseWaiting, 0, buffer)
    else match answers[0]
      case ReadFailed => (PhaseFailed(IoError), 1, buffer)
      case Chunk(bytes) =>
        if |bytes| == 0 then (PhaseFailed(ParseError), 1, buffer)
        else
          var r := HeaderPhase(buffer + bytes, answers[1..]);
          (r.0, r.1 + 1, r.2)
  }

  /** The bytes of the chunks among `answers`. */
  function Received(answers: seq<ReadOutcome>): seq<Byte>
  {
    if |answers| == 0 then []
    else (if answers[0].Chunk? then answers[0].bytes else []) + Received(answers[1..])
  }

  lemma ReceivedAppend(a: seq<ReadOutcome>, b: seq<ReadOutcome>)
    ensures Received(a + b) == Received(a) + Received(b)
  {
    if |a| > 0 {
      assert (a + b)[1..] == a[1..] + b;
      ReceivedAppend(a[1..], b);
    } else {
      assert a + b == b;
    }
  }

  /** The bytes of the first `n` answers: those of the first, then those of the next `n - 1`. */
  lemma ReceivedPrefix(answers: seq<ReadOutcome>, n: nat)
    requires 0 < n <= |answers|
    ensures Received(answers[..n])
         == (if answers[0].Chunk? then answers[0].bytes else []) + Received(answers[1..][..n - 1])
  {
    assert answers[..n][1..] == answers[1..][..n - 1];
  }

  /**
   * When parse_header finishes, the header it checked is the start of what
   * was buffered and read, it is valid, and exactly first_tag_offset bytes
   * of it are gone from the buffer.
   */
  lemma {:induction false} HeaderPhaseDone(buffer: seq<Byte>, answers: seq<ReadOutcome>)
    requires HeaderPhase(buffer, answers).0 == PhaseDone
    ensures var (_, used, rest) := HeaderPhase(buffer, answers);
      var all := buffer + Received(answers[..used]);
      |all| >= FirstTagOffset && ParseHeader(all).0 == ParseResult.Ok && rest == all[FirstTagOffset..]
    decreases |answers|
  {
    var (_, used, rest) := HeaderPhase(buffer, answers);
    if |buffer| >= FirstTagOffset {
      assert answers[..used] == [];
    } else {
      var bytes := answers[0].bytes;
      HeaderPhaseDone(buffer + bytes, answers[1..]);
      ReceivedPrefix(answers, used);
      assert buffer + Received(answers[..used]) == (buffer + bytes) + Received(answers[1..][..used - 1]);
    }
  }

  /** What parse_meta_data waits for: the metadata and both codec configurations. */
  predicate Complete(s: Session)
  {
    s.metaData.Some? && s.isAudioCfgRead && s.isVideoCfgRead
  }

  /**
   * parse_meta_data: read, parse the buffer with every callback set, drop
   * what was consumed, and stop once the session is complete; a parse that
   * is not ok, or a read that ends the stream before that, is a parse error.
   */
  function MetaPhase(buffer: seq<Byte>, lengthSize: nat, s: Session, answers: seq<ReadOutcome>): (r: Progress)
    requires ValidLengthSize(lengthSize)
    ensures r.used <= |answers| && ValidLengthSize(r.lengthSize)
    ensures r.phase == PhaseDone ==> Complete(r.session)
    ensures Grows(s, r.session)
    decreases |answers|
  {
    if |answers| == 0 then Progress(PhaseWaiting, 0, buffer, lengthSize, s)
    else match answers[0]
      case ReadFailed => Progress(PhaseFailed(IoError), 1, buffer, lengthSize, s)
      case Chunk(bytes) =>
        var data := buffer + bytes;
        var t := ParseTagsFrom(data, 0, lengthSize, Registered(false), s, Dispatch);
        ParseGrows(data, 0, lengthSize, Registered(false), s);
        ConsumedInside(data, 0, lengthSize, Registered(false), s, Dispatch);
        if t.result != ParseResult.Ok then Progress(PhaseFailed(ParseError), 1, data, t.lengthSize, t.state)
        else if Complete(t.state) then Progress(PhaseDone, 1, data[t.consumed..], t.lengthSize, t.state)
        else if |bytes| == 0 then Progress(PhaseFailed(ParseError), 1, data[t.consumed..], t.lengthSize, t.state)
        else
          var r := MetaPhase(data[t.consumed..], t.lengthSize, t.state, answers[1..]);
          GrowsTransitive(s, t.state, r.session);
          r.(used := r.used + 1)
  }

  /** One chunk of parse_meta_data, as the loop takes it. */
  lemma MetaPhaseChunk(buffer: seq<Byte>, lengthSize: nat, s: Session, answers: seq<ReadOutcome>)
    requires ValidLengthSize(lengthSize) && |answers| > 0 && answers[0].Chunk?
    ensures var data := buffer + answers[0].bytes;
      var t := ParseTagsFrom(data, 0, lengthSize, Registered(false), s, Dispatch);
      && (t.result == ParseResult.Ok ==> t.consumed <= |data|)
      && MetaPhase(buffer, lengthSize, s, answers)
         == if t.result != ParseResult.Ok then Progress(PhaseFailed(ParseError), 1, data, t.lengthSize, t.state)
            else if Complete(t.state) then Progress(PhaseDone, 1, data[t.consumed..], t.lengthSize, t.state)
            else if |answers[0].bytes| == 0 then
              Progress(PhaseFailed(ParseError), 1, data[t.consumed..], t.lengthSize, t.state)
            else
              var r := MetaPhase(data[t.consumed..], t.lengthSize, t.state, answers[1..]);
              r.(used := r.used + 1)
  {
    ConsumedInside(buffer + answers[0].bytes, 0, lengthSize, Registered(false), s, Dispatch);
  }

  // get_video_info

  const DurationName := AsciiBytes("duration")
  const WidthName := AsciiBytes("width")
  const HeightName := AsciiBytes("height")
  const KeyframesName := AsciiBytes("keyframes")
  const FilePositionsName := AsciiBytes("filepositions")
  const TimesName := AsciiBytes("times")

  /** find(key) on the metadata, kept only when that entry is a number. */
  function NumberProperty(entries: seq<Prop>, key: seq<Byte>): (r: Option<seq<Byte>>)
    ensures r.Some? <==> exists j :: 0 <= j < |entries| && entries[j].name == key && entries[j].value.Number?
                                     && forall k :: 0 <= k < j ==> entries[k].name != key
    ensures r.Some? ==> exists j :: 0 <= j < |entries| && entries[j].value == Number(r.value)
  {
    var i := IndexOf(entries, key);
    if i < |entries| && entries[i].value.Number? then Some(entries[i].value.raw) else None
  }

  predicate AllNumbers(values: seq<Value>)
  {
    forall i :: 0 <= i < |values| ==> values[i].Number?
  }

  /** The "keyframes" object of the metadata: absent, unusable, or two parallel arrays. */
  datatype KeyframeIndex = NoIndex | BadIndex | Index(times: seq<Value>, positions: seq<Value>)

  /**
   * The keyframe index is used when "keyframes" is an object; then its
   * "filepositions" and "times" must be strict arrays of the same, non-zero
   * length, and each of their elements a number.
   */
  function KeyframeIndexOf(entries: seq<Prop>): (r: KeyframeIndex)
    ensures r.Index? ==> |r.times| == |r.positions| > 0 && AllNumbers(r.times) && AllNumbers(r.positions)
    ensures r.NoIndex? <==> IndexOf(entries, KeyframesName) == |entries|
                            || !entries[IndexOf(entries, KeyframesName)].value.Object?
  {
    var i := IndexOf(entries, KeyframesName);
    if i == |entries| || !entries[i].value.Object? then NoIndex
    else
      var props := entries[i].value.props;
      match (Lookup(props, FilePositionsName), Lookup(props, TimesName))
      case (Some(StrictArray(positions)), Some(StrictArray(times))) =>
        if |positions| != |times| || |positions| == 0 then BadIndex
        else if !AllNumbers(times) || !AllNumbers(positions) then BadIndex
        else Index(times, positions)
      case _ => BadIndex
  }

  /**
   * get_video_info as written checks the arrays but not their elements:
   * the transform casts each one to amf_number and dereferences the
   * result, so a non-number element is a null dereference (None here), and
   * the handler for std::bad_cast around it never runs. Everywhere else it
   * agrees with KeyframeIndexOf, which reports that case as BadIndex.
   */
  function KeyframeIndexAsWritten(entries: seq<Prop>): (r: Option<KeyframeIndex>)
    ensures r.Some? ==> r.value == KeyframeIndexOf(entries)
    ensures r.None? ==> KeyframeIndexOf(entries).BadIndex?
  {
    var i := IndexOf(entries, KeyframesName);
    if i == |entries| || !entries[i].value.Object? then Some(NoIndex)
    else
      var props := entries[i].value.props;
      match (Lookup(props, FilePositionsName), Lookup(props, TimesName))
      case (Some(StrictArray(positions)), Some(StrictArray(times))) =>
        if |positions| != |times| || |positions| == 0 then Some(BadIndex)
        else if !AllNumbers(times) || !AllNumbers(positions) then None
        else Some(Index(times, positions))
      case _ => Some(BadIndex)
  }

  /**
   * A keyframes object whose one time is a boolean: as written a null
   * dereference, corrected the open fails with a parse error.
   */
  lemma KeyframeIndexNullElement()
    ensures var keyframes := Object([Prop(FilePositionsName, StrictArray([Number([0, 0, 0, 0, 0, 0, 0, 0])])),
                                     Prop(TimesName, StrictArray([Boolean(true)]))]);
            var entries := [Prop(KeyframesName, keyframes)];
            KeyframeIndexAsWritten(entries).None? && KeyframeIndexOf(entries) == BadIndex
  {
    var keyframes := Object([Prop(FilePositionsName, StrictArray([Number([0, 0, 0, 0, 0, 0, 0, 0])])),
                             Prop(TimesName, StrictArray([Boolean(true)]))]);
    var entries := [Prop(KeyframesName, keyframes)];
    assert IndexOf(entries, KeyframesName) == 0;
    assert FilePositionsName != TimesName by {
      assert |FilePositionsName| != |TimesName|;
    }
    assert IndexOf(keyframes.props, FilePositionsName) == 0;
    assert keyframes.props[1..] == [Prop(TimesName, StrictArray([Boolean(true)]))];
    assert IndexOf(keyframes.props[1..], TimesName) == 0;
    assert IndexOf(keyframes.props, TimesName) == 1;
    assert !StrictArray([Boolean(true)]).items[0].Number?;
  }

  /**
   * The std::transform into the keyframe table: the (time, position) pairs
   * inserted in order. `timeOf` and `positionOf` convert the eight-byte
   * doubles.
   */
  function InsertKeyframes(table: seq<Keyframe>, times: seq<Value>, positions: seq<Value>,
                           timeOf: seq<Byte> -> int, positionOf: seq<Byte> -> nat): (r: seq<Keyframe>)
    requires Descending(table) && |times| == |positions| && AllNumbers(times) && AllNumbers(positions)
    ensures Descending(r)
    decreases |times|
  {
    if |times| == 0 then table
    else
      var k := Keyframe(timeOf(times[0].raw), positionOf(positions[0].raw));
      InsertKeyframes(Insert(table, k), times[1..], positions[1..], timeOf, positionOf)
  }

  /** `e` is one of the (time, position) pairs of the index. */
  predicate Listed(e: Keyframe, times: seq<Value>, positions: seq<Value>,
                   timeOf: seq<Byte> -> int, positionOf: seq<Byte> -> nat)
    requires |times| == |positions| && AllNumbers(times) && AllNumbers(positions)
  {
    exists i :: 0 <= i < |times| && e == Keyframe(timeOf(times[i].raw), positionOf(positions[i].raw))
  }

  /**
   * After the transform every entry of the table is still there, every
   * listed time is a key, and nothing else has come in: each entry is an
   * old one or one of the listed pairs.
   */
  lemma {:induction false} InsertKeyframesEntries(table: seq<Keyframe>, times: seq<Value>, positions: seq<Value>,
                                                  timeOf: seq<Byte> -> int, positionOf: seq<Byte> -> nat)
    requires Descending(table) && |times| == |positions| && AllNumbers(times) && AllNumbers(positions)
    ensures var r := InsertKeyframes(table, times, positions, timeOf, positionOf);
      && (forall e :: e in table ==> e in r)
      && (forall i :: 0 <= i < |times| ==> HasTime(r, timeOf(times[i].raw)))
      && (forall e :: e in r ==> e in table || Listed(e, times, positions, timeOf, positionOf))
    decreases |times|
  {
    if |times| > 0 {
      var k := Keyframe(timeOf(times[0].raw), positionOf(positions[0].raw));
      var table1 := Insert(table, k);
      InsertKeyframesEntries(table1, times[1..], positions[1..], timeOf, positionOf);
      var r := InsertKeyframes(table1, times[1..], positions[1..], timeOf, positionOf);
      assert HasTime(table1, k.time) by {
        if !HasTime(table, k.time) {
          assert k in table1;
        } else {
          var e :| e in table && e.time == k.time;
          assert e in table1;
        }
      }
      var e0 :| e0 in table1 && e0.time == k.time;
      assert e0 in r;
      forall i | 0 <= i < |times|
        ensures HasTime(r, timeOf(times[i].raw))
      {
        if i > 0 {
          assert times[1..][i - 1] == times[i];
        }
      }
      forall e | e in r
        ensures e in table || Listed(e, times, positions, timeOf, positionOf)
      {
        if e !in table1 {
          assert Listed(e, times[1..], positions[1..], timeOf, positionOf);
          var i :| 0 <= i < |times| - 1 &&
                   e == Keyframe(timeOf(times[1..][i].raw), positionOf(positions[1..][i].raw));
          assert e == Keyframe(timeOf(times[i + 1].raw), positionOf(positions[i + 1].raw));
        } else if e !in table {
          assert e == k;
        }
      }
    }
  }

  /** What get_video_info reports (the numbers as their eight stored bytes). */
  datatype VideoInfo = VideoInfo(
    duration: Option<seq<Byte>>,
    canSeek: bool,
    audioCodecPrivateData: string,
    width: seq<Byte>,
    height: seq<Byte>)

  /**
   * The information get_video_info hands back once the keyframes are in:
   * there is none without a numeric width and a numeric height; the
   * duration is optional.
   */
  function InfoOf(entries: seq<Prop>, canSeek: bool, audioCodecPrivateData: string): (r: Option<VideoInfo>)
    ensures r.Some? <==> NumberProperty(entries, WidthName).Some? && NumberProperty(entries, HeightName).Some?
    ensures r.Some? ==> r.value == VideoInfo(NumberProperty(entries, DurationName), canSeek, audioCodecPrivateData,
                                             NumberProperty(entries, WidthName).value,
                                             NumberProperty(entries, HeightName).value)
  {
    var width := NumberProperty(entries, WidthName);
    var height := NumberProperty(entries, HeightName);
    if width.None? || height.None? then None
    else Some(VideoInfo(NumberProperty(entries, DurationName), canSeek, audioCodecPrivateData, width.value, height.value))
  }

  /** open as a whole: its result, or where it stands when the stream's answers run out. */
  datatype OpenOutcome = Opened(info: VideoInfo) | OpenFailed(error: OpenError) | OpenPending

  // ---------------------------------------------------------------------
  // The player

  class Player {
    const parser: Parser
    /** stream_proxy->can_seek() */
    const streamCanSeek: bool
    var readBuffer: seq<Byte>
    var session: Session
    var isClosed: bool
    var isEndOfStream: bool
    var isErrorOccurred: bool
    var isSampleReading: bool
    var keyframes: seq<Keyframe>
    var canSeek: bool
    /** read_sample_promise_queue: the coroutines waiting for the read in progress. */
    var waiters: seq<nat>

    predicate Valid()
      reads this, parser
    {
      parser.Valid() && Descending(keyframes)
    }

    /** The request flags, the waiting coroutines and the keyframe table are as they were. */
    twostate predicate RequestStateKept()
      reads this
    {
      && isClosed == old(isClosed) && isEndOfStream == old(isEndOfStream)
      && isErrorOccurred == old(isErrorOccurred) && isSampleReading == old(isSampleReading)
      && waiters == old(waiters) && keyframes == old(keyframes) && canSeek == old(canSeek)
    }

    constructor (streamCanSeek: bool)
      ensures Valid() && fresh(parser)
      ensures this.streamCanSeek == streamCanSeek
      ensures parser.lengthSize == 0 && parser.callbacks == NoCallbacks
      ensures readBuffer == [] && session == InitialSession
      ensures !isClosed && !isEndOfStream && !isErrorOccurred && !isSampleReading
      ensures keyframes == [] && !canSeek && waiters == []
    {
      parser := new Parser();
      this.streamCanSeek := streamCanSeek;
      readBuffer := [];
      session := InitialSession;
      isClosed, isEndOfStream, isErrorOccurred, isSampleReading := false, false, false, false;
      keyframes := [];
      canSeek := false;
      waiters := [];
    }

    /** register_callback_functions */
    method RegisterCallbacks(sampleOnly: bool)
      modifies parser
      ensures parser.callbacks == Registered(sampleOnly) && parser.lengthSize == old(parser.lengthSize)
    {
      if sampleOnly {
        parser.callbacks := parser.callbacks.(scriptTag := false, avcConfig := false,
                                              hevcConfig := false, audioConfig := false);
      } else {
        parser.callbacks := parser.callbacks.(scriptTag := true, avcConfig := true,
                                              hevcConfig := true, audioConfig := true);
      }
      parser.callbacks := parser.callbacks.(audioSample := true, videoSample := true);
    }

    /**
     * unregister_callback_functions clears five callbacks; the HEVC
     * configuration callback is left as it was, which register overwrites
     * before the parser runs again.
     */
    method UnregisterCallbacks()
      modifies parser
      ensures parser.callbacks == NoCallbacks.(hevcConfig := old(parser.callbacks.hevcConfig))
      ensures parser.lengthSize == old(parser.lengthSize)
    {
      parser.callbacks := parser.callbacks.(scriptTag := false, avcConfig := false, audioConfig := false,
                                            audioSample := false, videoSample := false);
    }

    /**
     * One turn of a request's loop for a queue holding `queued` samples:
     * waiting registers `waiter`, reading more starts read_more_sample.
     */
    method Request(queued: nat, waiter: nat) returns (d: Decision)
      requires Valid()
      modifies this
      ensures Valid()
      ensures d == Decide(old(isClosed), queued, old(isEndOfStream), old(isErrorOccurred), old(isSampleReading))
      ensures waiters == if d == Wait then old(waiters) + [waiter] else old(waiters)
      ensures isSampleReading == (old(isSampleReading) || d == ReadMore)
      ensures readBuffer == old(readBuffer) && session == old(session) && keyframes == old(keyframes)
      ensures isClosed == old(isClosed) && isEndOfStream == old(isEndOfStream)
      ensures isErrorOccurred == old(isErrorOccurred) && canSeek == old(canSeek)
    {
      if isClosed {
        return Cancel;
      }
      if queued > 0 {
        return Pop;
      }
      if isEndOfStream {
        return EndOfStream;
      }
      if isErrorOccurred {
        return Other;
      }
      if isSampleReading {
        waiters := waiters + [waiter];
        return Wait;
      }
      isSampleReading := true;
      return ReadMore;
    }

    /** get_audio_sample, one turn: the front of the audio queue when there is one to hand out. */
    method GetAudioSample(waiter: nat) returns (d: Decision, sample: Option<AudioSample>)
      requires Valid()
      modifies this
      ensures Valid()
      ensures d == Decide(old(isClosed), |old(session.audioQueue)|, old(isEndOfStream),
                          old(isErrorOccurred), old(isSampleReading))
      ensures d == Pop ==> sample == Some(old(session.audioQueue)[0])
                           && session == old(session).(audioQueue := old(session.audioQueue)[1..])
      ensures d != Pop ==> sample == None && session == old(session)
      ensures waiters == if d == Wait then old(waiters) + [waiter] else old(waiters)
      ensures isSampleReading == (old(isSampleReading) || d == ReadMore)
      ensures readBuffer == old(readBuffer) && keyframes == old(keyframes) && canSeek == old(canSeek)
      ensures isClosed == old(isClosed) && isEndOfStream == old(isEndOfStream)
      ensures isErrorOccurred == old(isErrorOccurred)
    {
      d := Request(|session.audioQueue|, waiter);
      sample := None;
      if d == Pop {
        sample := Some(session.audioQueue[0]);
        session := session.(audioQueue := session.audioQueue[1..]);
      }
    }

    /** get_video_sample, one turn. */
    method GetVideoSample(waiter: nat) returns (d: Decision, sample: Option<VideoSample>)
      requires Valid()
      modifies this
      ensures Valid()
      ensures d == Decide(old(isClosed), |old(session.videoQueue)|, old(isEndOfStream),
                          old(isErrorOccurred), old(isSampleReading))
      ensures d == Pop ==> sample == Some(old(session.videoQueue)[0])
                           && session == old(session).(videoQueue := old(session.videoQueue)[1..])
      ensures d != Pop ==> sample == None && session == old(session)
      ensures waiters == if d == Wait then old(waiters) + [waiter] else old(waiters)
      ensures isSampleReading == (old(isSampleReading) || d == ReadMore)
      ensures readBuffer == old(readBuffer) && keyframes == old(keyframes) && canSeek == old(canSeek)
      ensures isClosed == old(isClosed) && isEndOfStream == old(isEndOfStream)
      ensures isErrorOccurred == old(isErrorOccurred)
    {
      d := Request(|session.videoQueue|, waiter);
      sample := None;
      if d == Pop {
        sample := Some(session.videoQueue[0]);
        session := session.(videoQueue := session.videoQueue[1..]);
      }
    }

    /**
     * The step read_more_sample and parse_meta_data share once a chunk has
     * arrived: the chunk joins the buffer, the parser runs over it with the
     * callbacks of the phase registered, the callbacks are unregistered, and
     * on an ok parse the consumed prefix of the buffer is dropped.
     */
    method ParseBuffered(bytes: seq<Byte>, sampleOnly: bool) returns (result: ParseResult)
      requires Valid()
      modifies this, parser
      ensures Valid()
      ensures var data := old(readBuffer) + bytes;
        var r := ParseTagsFrom(data, 0, old(parser.lengthSize), Registered(sampleOnly), old(session), Dispatch);
        && result == r.result && session == r.state && parser.lengthSize == r.lengthSize
        && (result == ParseResult.Ok ==> r.consumed <= |data| && readBuffer == data[r.consumed..])
        && (result != ParseResult.Ok ==> readBuffer == data)
      ensures parser.callbacks == NoCallbacks.(hevcConfig := !sampleOnly)
      ensures RequestStateKept()
    {
      readBuffer := readBuffer + bytes;
      RegisterCallbacks(sampleOnly);
      var consumed;
      result, consumed, session := parser.ParseTags(readBuffer, session, Dispatch);
      UnregisterCallbacks();
      if result == ParseResult.Ok {
        ConsumedInside(old(readBuffer) + bytes, 0, old(parser.lengthSize), Registered(sampleOnly), old(session), Dispatch);
        readBuffer := readBuffer[consumed..];
      }
    }

    /**
     * The rest of read_more_sample once the stream has answered: a failed
     * read sets the error flag, an empty one the end of stream; otherwise the
     * chunk joins the buffer, the parser runs over it with the sample
     * callbacks, and either the consumed prefix is dropped or, when the
     * parse is not ok, the error flag is set. Then the read is over and
     * every waiting coroutine is released, in the order they queued.
     */
    method CompleteRead(outcome: ReadOutcome) returns (released: seq<nat>)
      requires Valid() && isSampleReading
      modifies this, parser
      ensures Valid() && !isSampleReading && waiters == [] && released == old(waiters)
      ensures outcome.ReadFailed? ==>
        && isErrorOccurred && isEndOfStream == old(isEndOfStream)
        && readBuffer == old(readBuffer) && session == old(session)
        && parser.lengthSize == old(parser.lengthSize) && parser.callbacks == old(parser.callbacks)
      ensures outcome == Chunk([]) ==>
        && isEndOfStream && isErrorOccurred == old(isErrorOccurred)
        && readBuffer == old(readBuffer) && session == old(session)
        && parser.lengthSize == old(parser.lengthSize) && parser.callbacks == old(parser.callbacks)
      ensures outcome.Chunk? && outcome.bytes != [] ==>
        var data := old(readBuffer) + outcome.bytes;
        var r := ParseTagsFrom(data, 0, old(parser.lengthSize), Registered(true), old(session), Dispatch);
        && session == r.state && parser.lengthSize == r.lengthSize && parser.callbacks == NoCallbacks
        && isEndOfStream == old(isEndOfStream)
        && (r.result == ParseResult.Ok ==> r.consumed <= |data| && readBuffer == data[r.consumed..]
                                            && isErrorOccurred == old(isErrorOccurred))
        && (r.result != ParseResult.Ok ==> readBuffer == data && isErrorOccurred)
      ensures isClosed == old(isClosed) && keyframes == old(keyframes) && canSeek == old(canSeek)
    {
      match outcome {
        case ReadFailed =>
          isErrorOccurred := true;
        case Chunk(bytes) =>
          if |bytes| == 0 {
            isEndOfStream := true;
          } else {
            var result := ParseBuffered(bytes, true);
            if result != ParseResult.Ok {
              isErrorOccurred := true;
            }
          }
      }
      isSampleReading := false;
      released := waiters;
      waiters := [];
    }

    /**
     * seek, one turn, as written: cancelled when closed, waiting while a read
     * is in progress, and otherwise moving to the keyframe lower_bound finds.
     * The buffer and both queues are emptied, the end-of-stream and error
     * flags cleared, and a stream seek that throws sets the error flag
     * again. An empty table (a stream without a keyframes index) reaches
     * rbegin() of an empty map: the model stops there with SeekUndefined.
     */
    method SeekAsWritten(seekToTime: int, waiter: nat, streamSeekOk: bool) returns (s: SeekStep)
      requires Valid()
      modifies this
      ensures Valid()
      ensures old(isClosed) ==> s == SeekCanceled && unchanged(this)
      ensures !old(isClosed) && old(isSampleReading) ==>
        && s == SeekWaiting && waiters == old(waiters) + [waiter]
        && readBuffer == old(readBuffer) && session == old(session)
        && isEndOfStream == old(isEndOfStream) && isErrorOccurred == old(isErrorOccurred)
      ensures !old(isClosed) && !old(isSampleReading) && old(keyframes) == [] ==> s == SeekUndefined && unchanged(this)
      ensures !old(isClosed) && !old(isSampleReading) && old(keyframes) != [] ==>
        && s.Sought? && SeekTarget(keyframes, seekToTime, Keyframe(s.time, s.position))
        && readBuffer == [] && session == old(session).(audioQueue := [], videoQueue := [])
        && !isEndOfStream && isErrorOccurred == !streamSeekOk && waiters == old(waiters)
      ensures isClosed == old(isClosed) && isSampleReading == old(isSampleReading)
      ensures keyframes == old(keyframes) && canSeek == old(canSeek)
    {
      if isClosed {
        return SeekCanceled;
      }
      if isSampleReading {
        waiters := waiters + [waiter];
        return SeekWaiting;
      }
      if keyframes == [] {
        return SeekUndefined;
      }
      s := MoveToKeyframe(seekToTime, streamSeekOk);
    }

    /**
     * seek as intended: the same steps, except that an empty keyframe table
     * throws seek_error, which handle_starting already catches, and leaves
     * the player as it was.
     */
    method Seek(seekToTime: int, waiter: nat, streamSeekOk: bool) returns (s: SeekStep)
      requires Valid()
      modifies this
      ensures Valid()
      ensures old(isClosed) ==> s == SeekCanceled && unchanged(this)
      ensures !old(isClosed) && old(isSampleReading) ==>
        && s == SeekWaiting && waiters == old(waiters) + [waiter]
        && readBuffer == old(readBuffer) && session == old(session)
        && isEndOfStream == old(isEndOfStream) && isErrorOccurred == old(isErrorOccurred)
      ensures !old(isClosed) && !old(isSampleReading) && old(keyframes) == [] ==> s == SeekRefused && unchanged(this)
      ensures !old(isClosed) && !old(isSampleReading) && old(keyframes) != [] ==>
        && s.Sought? && SeekTarget(keyframes, seekToTime, Keyframe(s.time, s.position))
        && readBuffer == [] && session == old(session).(audioQueue := [], videoQueue := [])
        && !isEndOfStream && isErrorOccurred == !streamSeekOk && waiters == old(waiters)
      ensures isClosed == old(isClosed) && isSampleReading == old(isSampleReading)
      ensures keyframes == old(keyframes) && canSeek == old(canSeek)
    {
      if isClosed {
        return SeekCanceled;
      }
      if isSampleReading {
        waiters := waiters + [waiter];
        return SeekWaiting;
      }
      if keyframes == [] {
        return SeekRefused;
      }
      s := MoveToKeyframe(seekToTime, streamSeekOk);
    }

    /** The part of seek after the wait: find the keyframe, empty the buffers, seek the stream. */
    method MoveToKeyframe(seekToTime: int, streamSeekOk: bool) returns (s: SeekStep)
      requires Valid() && keyframes != []
      modifies this
      ensures Valid()
      ensures s.Sought? && SeekTarget(keyframes, seekToTime, Keyframe(s.time, s.position))
      ensures readBuffer == [] && session == old(session).(audioQueue := [], videoQueue := [])
      ensures !isEndOfStream && isErrorOccurred == !streamSeekOk && waiters == old(waiters)
      ensures isClosed == old(isClosed) && isSampleReading == old(isSampleReading)
      ensures keyframes == old(keyframes) && canSeek == old(canSeek)
    {
      var k := LowerBound(keyframes, seekToTime);
      readBuffer := [];
      session := session.(audioQueue := [], videoQueue := []);
      isErrorOccurred := false;
      isEndOfStream := false;
      if !streamSeekOk {
        isErrorOccurred := true;
      }
      return Sought(k.time, k.position);
    }

    /** close */
    method Close()
      requires Valid()
      modifies this
      ensures Valid() && isClosed
      ensures readBuffer == old(readBuffer) && session == old(session) && keyframes == old(keyframes)
      ensures isEndOfStream == old(isEndOfStream) && isErrorOccurred == old(isErrorOccurred)
      ensures isSampleReading == old(isSampleReading) && waiters == old(waiters) && canSeek == old(canSeek)
    {
      isClosed := true;
    }

    /**
     * adjust_sample_timestamp: times pass through unchanged when the stream
     * can seek; otherwise they count from the first sample, never below 0.
     */
    function AdjustSampleTimestamp(timestamp: int): (r: int)
      reads this
      ensures canSeek ==> r == timestamp
      ensures !canSeek ==> r >= 0 && r >= timestamp - FirstTimestamp()
      ensures !canSeek && timestamp >= FirstTimestamp() ==> r == timestamp - FirstTimestamp()
    {
      if canSeek then timestamp
      else if timestamp > FirstTimestamp() then timestamp - FirstTimestamp()
      else 0
    }

    /** first_sample_timestamp, which starts at 0. */
    function FirstTimestamp(): int
      reads this
    {
      if session.firstSampleTimestamp.Some? then session.firstSampleTimestamp.value else 0
    }

    /** parse_header, over the stream's answers `answers`; `used` of them are consumed. */
    method ParseHeaderPhase(answers: seq<ReadOutcome>) returns (phase: Phase, used: nat)
      requires Valid()
      modifies this
      ensures Valid()
      ensures HeaderPhase(old(readBuffer), answers) == (phase, used, readBuffer)
      ensures session == old(session) && RequestStateKept()
    {
      used := 0;
      while |readBuffer| < FirstTagOffset
        invariant used <= |answers|
        invariant var r := HeaderPhase(readBuffer, answers[used..]);
          (r.0, r.1 + used, r.2) == HeaderPhase(old(readBuffer), answers)
        invariant session == old(session) && RequestStateKept()
        decreases |answers| - used
      {
        if used == |answers| {
          return PhaseWaiting, used;
        }
        assert answers[used..][1..] == answers[used + 1..];
        match answers[used] {
          case ReadFailed =>
            return PhaseFailed(IoError), used + 1;
          case Chunk(bytes) =>
            used := used + 1;
            if |bytes| == 0 {
              return PhaseFailed(ParseError), used;
            }
            readBuffer := readBuffer + bytes;
        }
      }
      var result, _ := parser.ParseFlvHeader(readBuffer);
      if result != ParseResult.Ok {
        return PhaseFailed(ParseError), used;
      }
      readBuffer := readBuffer[FirstTagOffset..];
      return PhaseDone, used;
    }

    /** parse_meta_data, over the stream's answers `answers`. */
    method ParseMetaDataPhase(answers: seq<ReadOutcome>) returns (phase: Phase, used: nat)
      requires Valid()
      modifies this, parser
      ensures Valid()
      ensures MetaPhase(old(readBuffer), old(parser.lengthSize), old(session), answers)
           == Progress(phase, used, readBuffer, parser.lengthSize, session)
      ensures parser.callbacks == old(parser.callbacks) || parser.callbacks == NoCallbacks.(hevcConfig := true)
      ensures RequestStateKept()
    {
      ghost var target := MetaPhase(readBuffer, parser.lengthSize, session, answers);
      used := 0;
      while true
        invariant Valid() && used <= |answers|
        invariant var r := MetaPhase(readBuffer, parser.lengthSize, session, answers[used..]);
          r.(used := r.used + used) == target
        invariant parser.callbacks == old(parser.callbacks) || parser.callbacks == NoCallbacks.(hevcConfig := true)
        invariant RequestStateKept()
        decreases |answers| - used
      {
        if used == |answers| {
          return PhaseWaiting, used;
        }
        var outcome := answers[used];
        if outcome.ReadFailed? {
          return PhaseFailed(IoError), used + 1;
        }
        assert answers[used..] == [outcome] + answers[used + 1..];
        var stop, last := MetaPhaseStep(outcome.bytes, answers[used + 1..]);
        used := used + 1;
        if stop {
          return last, used;
        }
      }
    }

    /** One chunk of parse_meta_data: parse it, and say whether the phase stops there. */
    method MetaPhaseStep(bytes: seq<Byte>, ghost rest: seq<ReadOutcome>) returns (stop: bool, phase: Phase)
      requires Valid()
      modifies this, parser
      ensures Valid()
      ensures var before := MetaPhase(old(readBuffer), old(parser.lengthSize), old(session), [Chunk(bytes)] + rest);
        if stop then before == Progress(phase, 1, readBuffer, parser.lengthSize, session)
        else var r := MetaPhase(readBuffer, parser.lengthSize, session, rest); before == r.(used := r.used + 1)
      ensures parser.callbacks == NoCallbacks.(hevcConfig := true)
      ensures RequestStateKept()
    {
      MetaPhaseChunk(readBuffer, parser.lengthSize, session, [Chunk(bytes)] + rest);
      assert ([Chunk(bytes)] + rest)[1..] == rest;
      var result := ParseBuffered(bytes, false);
      if result != ParseResult.Ok {
        return true, PhaseFailed(ParseError);
      }
      if Complete(session) {
        return true, PhaseDone;
      }
      if |bytes| == 0 {
        return true, PhaseFailed(ParseError);
      }
      return false, PhaseWaiting;
    }

    /** The std::transform of get_video_info: each (time, position) pair goes into the keyframe table. */
    method FillKeyframes(times: seq<Value>, positions: seq<Value>,
                         timeOf: seq<Byte> -> int, positionOf: seq<Byte> -> nat)
      requires Valid() && |times| == |positions| && AllNumbers(times) && AllNumbers(positions)
      modifies this
      ensures Valid() && keyframes == InsertKeyframes(old(keyframes), times, positions, timeOf, positionOf)
      ensures session == old(session) && readBuffer == old(readBuffer) && canSeek == old(canSeek)
      ensures isClosed == old(isClosed) && isEndOfStream == old(isEndOfStream)
      ensures isErrorOccurred == old(isErrorOccurred) && isSampleReading == old(isSampleReading)
      ensures waiters == old(waiters)
    {
      var i := 0;
      while i < |times|
        invariant i <= |times| && Valid()
        invariant InsertKeyframes(keyframes, times[i..], positions[i..], timeOf, positionOf)
               == InsertKeyframes(old(keyframes), times, positions, timeOf, positionOf)
        invariant session == old(session) && readBuffer == old(readBuffer) && canSeek == old(canSeek)
        invariant isClosed == old(isClosed) && isEndOfStream == old(isEndOfStream)
        invariant isErrorOccurred == old(isErrorOccurred) && isSampleReading == old(isSampleReading)
        invariant waiters == old(waiters)
      {
        assert times[i..][1..] == times[i + 1..] && positions[i..][1..] == positions[i + 1..];
        keyframes := Insert(keyframes, Keyframe(timeOf(times[i].raw), positionOf(positions[i].raw)));
        i := i + 1;
      }
    }

    /**
     * get_video_info, once the metadata is known: the keyframe index (if
     * any) fills the keyframe table, CanSeek needs a seekable stream and a
     * non-empty table, and a width and a height are required.
     */
    method GetVideoInfo(timeOf: seq<Byte> -> int, positionOf: seq<Byte> -> nat) returns (r: Option<VideoInfo>)
      requires Valid() && session.metaData.Some?
      modifies this
      ensures Valid() && session == old(session)
      ensures var entries := session.metaData.value;
        var index := KeyframeIndexOf(entries);
        && (index.BadIndex? ==> r.None? && keyframes == old(keyframes) && canSeek == old(canSeek))
        && (index.NoIndex? ==> keyframes == old(keyframes))
        && (index.Index? ==> keyframes == InsertKeyframes(old(keyframes), index.times, index.positions, timeOf, positionOf))
        && (!index.BadIndex? ==> canSeek == (streamCanSeek && keyframes != []))
        && (!index.BadIndex? ==> r == InfoOf(entries, canSeek, session.audioCodecPrivateData))
      ensures readBuffer == old(readBuffer)
      ensures isClosed == old(isClosed) && isEndOfStream == old(isEndOfStream)
      ensures isErrorOccurred == old(isErrorOccurred) && isSampleReading == old(isSampleReading)
      ensures waiters == old(waiters)
    {
      var entries := session.metaData.value;
      var index := KeyframeIndexOf(entries);
      if index.BadIndex? {
        return None;
      }
      if index.Index? {
        FillKeyframes(index.times, index.positions, timeOf, positionOf);
      }
      canSeek := streamCanSeek && keyframes != [];
      r := InfoOf(entries, canSeek, session.audioCodecPrivateData);
    }

    /**
     * open: parse_header, then parse_meta_data on the answers left, then
     * get_video_info; OpenPending when the stream's answers run out first.
     */
    method Open(answers: seq<ReadOutcome>, timeOf: seq<Byte> -> int, positionOf: seq<Byte> -> nat)
      returns (o: OpenOutcome, used: nat)
      requires Valid()
      modifies this, parser
      ensures Valid() && used <= |answers|
      ensures HeaderPhase(old(readBuffer), answers).0 != PhaseDone ==>
        used == HeaderPhase(old(readBuffer), answers).1 &&
        o == (if HeaderPhase(old(readBuffer), answers).0 == PhaseWaiting then OpenPending
              else OpenFailed(HeaderPhase(old(readBuffer), answers).0.error))
      ensures var h := HeaderPhase(old(readBuffer), answers);
        h.0 == PhaseDone ==>
        var m := MetaPhase(h.2, old(parser.lengthSize), old(session), answers[h.1..]);
        && used == h.1 + m.used
        && (m.phase != PhaseDone ==>
              o == (if m.phase == PhaseWaiting then OpenPending else OpenFailed(m.phase.error)))
        && (m.phase == PhaseDone ==>
              var entries := m.session.metaData.value;
              var index := KeyframeIndexOf(entries);
              var info := InfoOf(entries, canSeek, m.session.audioCodecPrivateData);
              && session == m.session
              && (index.BadIndex? ==> o == OpenFailed(ParseError))
              && (index.Index? ==> keyframes == InsertKeyframes(old(keyframes), index.times, index.positions, timeOf, positionOf))
              && (index.NoIndex? ==> keyframes == old(keyframes))
              && (!index.BadIndex? ==> canSeek == (streamCanSeek && keyframes != [])
                                       && o == (if info.Some? then Opened(info.value) else OpenFailed(ParseError))))
      ensures o.Opened? ==> HeaderPhase(old(readBuffer), answers).0 == PhaseDone
      ensures o.Opened? ==> Complete(session) && o.info.canSeek == canSeek && (canSeek ==> keyframes != [])
    {
      var phase, n := ParseHeaderPhase(answers);
      used := n;
      if phase != PhaseDone {
        o := if phase == PhaseWaiting then OpenPending else OpenFailed(phase.error);
        return;
      }
      phase, n := ParseMetaDataPhase(answers[used..]);
      used := used + n;
      if phase != PhaseDone {
        o := if phase == PhaseWaiting then OpenPending else OpenFailed(phase.error);
        return;
      }
      var info := GetVideoInfo(timeOf, positionOf);
      if info.None? {
        return OpenFailed(ParseError), used;
      }
      return Opened(info.value), used;
    }
  }

  /** Adjusted times keep their order. */
  lemma AdjustMonotone(p: Player, a: int, b: int)
    requires a <= b
    ensures p.AdjustSampleTimestamp(a) <= p.AdjustSampleTimestamp(b)
  {
  }

  /**
   * A stream whose metadata carries no keyframes index opens with an empty
   * table and cannot seek; a start position handed to seek then reaches
   * rbegin() of the empty map.
   */
  method SeekWithoutKeyframesAsWritten() returns (s: SeekStep)
    ensures s == SeekUndefined
  {
    var p := new Player(true);
    p.session := p.session.(metaData := Some([]));
    var info := p.GetVideoInfo(b => 0, b => 0);
    assert !p.canSeek;
    s := p.SeekAsWritten(0, 0, true);
  }

  /** The corrected seek refuses instead, and the player stays as it was. */
  method SeekWithoutKeyframes() returns (s: SeekStep)
    ensures s == SeekRefused
  {
    var p := new Player(true);
    p.session := p.session.(metaData := Some([]));
    var info := p.GetVideoInfo(b => 0, b => 0);
    s := p.Seek(0, 0, true);
  }
}
