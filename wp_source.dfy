// The Windows Phone Silverlight adapter
// (WindowsPhoneSilverlight/dpmss/FlvMediaStreamSource.cs): a
// MediaStreamSource over the threaded player. The runtime calls its
// overrides; each `async` override is split at its `await` into the part
// that starts the player's operation and the part that runs when the
// operation completes, whose outcome is a parameter. Four flags guard the
// handlers against calls in the wrong state, and everything the adapter
// reports to the runtime, or asks of the player and the stream, is appended
// to `log`. A call on a field that is null throws a NullReferenceException in
// the source; here such a call returns `threw` and changes nothing further.

module SilverlightSource {
  import opened Bytes
  import opened Wrappers

  /** MediaStreamType */
  datatype MediaStreamType = AudioType | VideoType | ScriptType

  /** The two kinds of stream the source describes. */
  datatype StreamKind = AudioStream | VideoStream

  /**
   * What get_sample_async completes with: a sample's "Timestamp" and "Data",
   * the end of the stream, an error, or any other value of the result
   * enumeration, which the else-if chain passes over.
   */
  datatype SampleResult = SampleOk(timestamp: int, data: seq<Byte>) | SampleEos | SampleError | SampleOther

  /** The media_info map of a successful open. */
  datatype MediaInfo = MediaInfo(
    duration: string,
    canSeek: string,
    audioCodecPrivateData: string,
    height: string,
    width: string,
    videoFourCC: string,
    videoCodecPrivateData: string)

  /** What open_async completes with: ok with its media info, error, or another value the adapter ignores. */
  datatype OpenResult = OpenOk(info: MediaInfo) | OpenError | OpenOther

  datatype StreamDescription =
    | AudioDescription(codecPrivateData: string)
    | VideoDescription(height: string, width: string, videoFourCC: string, codecPrivateData: string)

  /** What the adapter tells the runtime, and the calls it makes on the player and the stream. */
  datatype Report =
    | OpenCompleted(duration: string, canSeek: string, streams: seq<StreamDescription>)
    | SampleCompleted(stream: StreamKind, data: seq<Byte>, timestamp: int)
    | EndOfStreamSample(stream: StreamKind)
    | ErrorOccurred(message: string)
    | SeekCompleted(time: int)
    | PlayerEndSeek
    | PlayerClosed
    | PlayerDisposed
    | StreamDisposed

  /** The first half of GetSampleAsync. */
  datatype SampleStep = NotRequested | SampleThrew | SampleAwaiting(stream: StreamKind)

  /** The first half of SeekAsync. */
  datatype SeekStep = SeekIgnored | SeekThrew | SeekAwaiting

  /** The two streams an open reports, audio first. */
  function Streams(info: MediaInfo): (r: seq<StreamDescription>)
    ensures |r| == 2 && r[0].AudioDescription? && r[1].VideoDescription?
    ensures r[0].codecPrivateData == info.audioCodecPrivateData && r[1].codecPrivateData == info.videoCodecPrivateData
  {
    [AudioDescription(info.audioCodecPrivateData),
     VideoDescription(info.height, info.width, info.videoFourCC, info.videoCodecPrivateData)]
  }

  /** Division of a C# long, which truncates toward zero. */
  function DivTruncate(a: int, b: nat): (r: int)
    requires b > 0
    ensures a >= 0 ==> r * b <= a < (r + 1) * b
    ensures a < 0 ==> (r - 1) * b < a <= r * b
  {
    if a >= 0 then a / b else -((-a) / b)
  }

  const SampleErrorMessage := "An error occured while parsing FLV file body."
  const OpenErrorMessage := "Failed to open flv file."

  class FlvSource {
    /** flvPlayer and randomAccessStream, as whether each is set */
    var hasPlayer: bool
    var hasStream: bool
    var isClosed: bool
    var isErrorOccurred: bool
    var isSeeking: bool
    var disposed: bool
    var log: seq<Report>

    constructor (hasStream: bool)
      ensures this.hasStream == hasStream && !hasPlayer
      ensures !isClosed && !isErrorOccurred && !isSeeking && !disposed && log == []
    {
      this.hasStream := hasStream;
      hasPlayer := false;
      isClosed, isErrorOccurred, isSeeking, disposed := false, false, false, false;
      log := [];
    }

    /** Wrap: a null stream is refused, any other is wrapped in a new source. */
    static method Wrap(streamGiven: bool) returns (source: FlvSource?)
      ensures source == null <==> !streamGiven
      ensures source != null ==> fresh(source) && source.hasStream && !source.hasPlayer
      ensures source != null ==> !source.isClosed && !source.isErrorOccurred && !source.isSeeking
      ensures source != null ==> !source.disposed && source.log == []
    {
      if !streamGiven {
        return null;
      }
      source := new FlvSource(true);
    }

    /**
     * Position, in milliseconds: 0 once closed or after an error, otherwise
     * the player's position (in units of 100 ns) over 10000. None where the
     * player is not set and the getter throws.
     */
    function Position(playerPosition: int): (r: Option<int>)
      reads this
      ensures isClosed || isErrorOccurred ==> r == Some(0)
      ensures r.None? <==> !isClosed && !isErrorOccurred && !hasPlayer
      ensures !isClosed && !isErrorOccurred && hasPlayer && playerPosition >= 0 ==>
        r.Some? && r.value * 10000 <= playerPosition < (r.value + 1) * 10000
    {
      if isClosed || isErrorOccurred then Some(0)
      else if !hasPlayer then None
      else Some(DivTruncate(playerPosition, 10000))
    }

    /** CloseMedia: close the player and mark the source closed. */
    method CloseMedia() returns (threw: bool)
      modifies this
      ensures threw <==> !old(hasPlayer)
      ensures !threw ==> isClosed && log == old(log) + [PlayerClosed]
      ensures threw ==> isClosed == old(isClosed) && log == old(log)
      ensures hasPlayer == old(hasPlayer) && hasStream == old(hasStream) && isErrorOccurred == old(isErrorOccurred)
      ensures isSeeking == old(isSeeking) && disposed == old(disposed)
    {
      if !hasPlayer {
        return true;
      }
      log := log + [PlayerClosed];
      isClosed := true;
      threw := false;
    }

    /** The first half of OpenMediaAsync: a new player over the stream. */
    method OpenMedia()
      modifies this
      ensures hasPlayer && log == old(log)
      ensures hasStream == old(hasStream) && isClosed == old(isClosed) && isErrorOccurred == old(isErrorOccurred)
      ensures isSeeking == old(isSeeking) && disposed == old(disposed)
    {
      hasPlayer := true;
    }

    /**
     * The rest of OpenMediaAsync: nothing once the source is closed; a
     * successful open reports the duration, whether the stream can seek and
     * the audio and video streams; a failed one sets the error flag and
     * reports the error.
     */
    method CompleteOpen(result: OpenResult)
      modifies this
      ensures old(isClosed) ==> log == old(log) && isErrorOccurred == old(isErrorOccurred)
      ensures !old(isClosed) && result.OpenOk? ==>
        log == old(log) + [OpenCompleted(result.info.duration, result.info.canSeek, Streams(result.info))]
        && isErrorOccurred == old(isErrorOccurred)
      ensures !old(isClosed) && result.OpenError? ==>
        log == old(log) + [ErrorOccurred(OpenErrorMessage)] && isErrorOccurred
      ensures result.OpenOther? ==> log == old(log) && isErrorOccurred == old(isErrorOccurred)
      ensures hasPlayer == old(hasPlayer) && hasStream == old(hasStream) && isClosed == old(isClosed)
      ensures isSeeking == old(isSeeking) && disposed == old(disposed)
    {
      if isClosed {
        return;
      }
      match result
      case OpenOk(info) =>
        log := log + [OpenCompleted(info.duration, info.canSeek, Streams(info))];
      case OpenError =>
        isErrorOccurred := true;
        log := log + [ErrorOccurred(OpenErrorMessage)];
      case OpenOther =>
    }

    /** The first half of GetSampleAsync: script requests are not passed on. */
    method RequestSample(t: MediaStreamType) returns (step: SampleStep)
      ensures t == ScriptType ==> step == NotRequested
      ensures t != ScriptType && !hasPlayer ==> step == SampleThrew
      ensures t != ScriptType && hasPlayer ==>
        step == SampleAwaiting(if t == AudioType then AudioStream else VideoStream)
    {
      if t == ScriptType {
        return NotRequested;
      }
      if !hasPlayer {
        return SampleThrew;
      }
      step := SampleAwaiting(if t == AudioType then AudioStream else VideoStream);
    }

    /**
     * The rest of GetSampleAsync: once the source is closed or has failed the
     * completion is dropped; a sample is reported on its stream with its
     * time and data, the end of the stream as an empty sample, and an error
     * sets the error flag and is reported.
     */
    method CompleteSample(stream: StreamKind, result: SampleResult)
      modifies this
      ensures old(isClosed) || old(isErrorOccurred) ==> log == old(log) && isErrorOccurred == old(isErrorOccurred)
      ensures !old(isClosed) && !old(isErrorOccurred) ==>
        match result
        case SampleOk(timestamp, data) =>
          log == old(log) + [SampleCompleted(stream, data, timestamp)] && !isErrorOccurred
        case SampleEos => log == old(log) + [EndOfStreamSample(stream)] && !isErrorOccurred
        case SampleError => log == old(log) + [ErrorOccurred(SampleErrorMessage)] && isErrorOccurred
        case SampleOther => log == old(log) && isErrorOccurred == old(isErrorOccurred)
      ensures hasPlayer == old(hasPlayer) && hasStream == old(hasStream) && isClosed == old(isClosed)
      ensures isSeeking == old(isSeeking) && disposed == old(disposed)
    {
      if isClosed || isErrorOccurred {
        return;
      }
      match result
      case SampleOk(timestamp, data) =>
        log := log + [SampleCompleted(stream, data, timestamp)];
      case SampleEos =>
        log := log + [EndOfStreamSample(stream)];
      case SampleError =>
        isErrorOccurred := true;
        log := log + [ErrorOccurred(SampleErrorMessage)];
      case SampleOther =>
    }

    /** The first half of SeekAsync: ignored while a seek is in progress. */
    method Seek() returns (step: SeekStep)
      modifies this
      ensures old(isSeeking) ==> step == SeekIgnored
      ensures !old(isSeeking) ==> step == (if hasPlayer then SeekAwaiting else SeekThrew)
      ensures isSeeking && log == old(log)
      ensures hasPlayer == old(hasPlayer) && hasStream == old(hasStream) && isClosed == old(isClosed)
      ensures isErrorOccurred == old(isErrorOccurred) && disposed == old(disposed)
    {
      if isSeeking {
        return SeekIgnored;
      }
      isSeeking := true;
      step := if hasPlayer then SeekAwaiting else SeekThrew;
    }

    /**
     * The rest of SeekAsync as written: a seek that failed (-1), or that
     * completes after an error or the close, returns early and leaves the
     * source seeking, so that every later seek is ignored. One that
     * completes after Dispose removed the player reports the seek, then
     * throws at end_seek and leaves the source seeking too.
     */
    method CompleteSeekAsWritten(seekTo: int) returns (threw: bool)
      modifies this
      ensures threw <==> !(old(isErrorOccurred) || old(isClosed) || seekTo == -1) && !old(hasPlayer)
      ensures old(isErrorOccurred) || old(isClosed) || seekTo == -1 ==> log == old(log) && isSeeking == old(isSeeking)
      ensures !(old(isErrorOccurred) || old(isClosed) || seekTo == -1) && !old(hasPlayer) ==>
        log == old(log) + [SeekCompleted(seekTo)] && isSeeking == old(isSeeking)
      ensures !(old(isErrorOccurred) || old(isClosed) || seekTo == -1) && old(hasPlayer) ==>
        log == old(log) + [SeekCompleted(seekTo), PlayerEndSeek] && !isSeeking
      ensures hasPlayer == old(hasPlayer) && hasStream == old(hasStream) && isClosed == old(isClosed)
      ensures isErrorOccurred == old(isErrorOccurred) && disposed == old(disposed)
    {
      threw := false;
      if isErrorOccurred || isClosed || seekTo == -1 {
        return;
      }
      log := log + [SeekCompleted(seekTo)];
      if !hasPlayer {
        return true;
      }
      log := log + [PlayerEndSeek];
      isSeeking := false;
    }

    /**
     * The rest of SeekAsync as intended: the seek is over however it ended,
     * and once Dispose has removed the player there is nothing to report
     * and no seek to end.
     */
    method CompleteSeek(seekTo: int) returns (threw: bool)
      modifies this
      ensures !threw && !isSeeking
      ensures old(isErrorOccurred) || old(isClosed) || seekTo == -1 || !old(hasPlayer) ==> log == old(log)
      ensures !(old(isErrorOccurred) || old(isClosed) || seekTo == -1) && old(hasPlayer) ==>
        log == old(log) + [SeekCompleted(seekTo), PlayerEndSeek]
      ensures hasPlayer == old(hasPlayer) && hasStream == old(hasStream) && isClosed == old(isClosed)
      ensures isErrorOccurred == old(isErrorOccurred) && disposed == old(disposed)
    {
      threw := false;
      if !(isErrorOccurred || isClosed || seekTo == -1) && hasPlayer {
        log := log + [SeekCompleted(seekTo), PlayerEndSeek];
      }
      isSeeking := false;
    }

    /**
     * Dispose(disposing) as written: `disposed` is tested but never set, so
     * a second Dispose() finds the player gone and throws.
     */
    method DisposeAsWritten(disposing: bool) returns (threw: bool)
      modifies this
      ensures old(disposed) ==> !threw && log == old(log) && hasPlayer == old(hasPlayer) && hasStream == old(hasStream)
      ensures !old(disposed) && disposing && !old(hasPlayer) ==> threw && log == old(log) && !hasPlayer && hasStream == old(hasStream)
      ensures !old(disposed) && disposing && old(hasPlayer) && !old(hasStream) ==>
        threw && log == old(log) + [PlayerDisposed] && hasPlayer && !hasStream
      ensures !old(disposed) && !(disposing && !(old(hasPlayer) && old(hasStream))) ==>
        !threw && log == old(log) + (if disposing then [PlayerDisposed, StreamDisposed] else [])
        && !hasPlayer && !hasStream
      ensures disposed == old(disposed)
      ensures isClosed == old(isClosed) && isErrorOccurred == old(isErrorOccurred) && isSeeking == old(isSeeking)
    {
      threw := false;
      if disposed {
        return;
      }
      if disposing {
        if !hasPlayer {
          return true;
        }
        log := log + [PlayerDisposed];
        if !hasStream {
          return true;
        }
        log := log + [StreamDisposed];
      }
      hasPlayer := false;
      hasStream := false;
    }

    /** Dispose(disposing) as intended: the first call that gets through marks the source disposed. */
    method Dispose(disposing: bool) returns (threw: bool)
      modifies this
      ensures old(disposed) ==> !threw && log == old(log) && hasPlayer == old(hasPlayer) && hasStream == old(hasStream)
      ensures !old(disposed) && disposing && !old(hasPlayer) ==> threw && log == old(log) && !hasPlayer && hasStream == old(hasStream)
      ensures !old(disposed) && disposing && old(hasPlayer) && !old(hasStream) ==>
        threw && log == old(log) + [PlayerDisposed] && hasPlayer && !hasStream
      ensures !old(disposed) && !(disposing && !(old(hasPlayer) && old(hasStream))) ==>
        !threw && log == old(log) + (if disposing then [PlayerDisposed, StreamDisposed] else [])
        && !hasPlayer && !hasStream && disposed
      ensures isClosed == old(isClosed) && isErrorOccurred == old(isErrorOccurred) && isSeeking == old(isSeeking)
    {
      threw := false;
      if disposed {
        return;
      }
      if disposing {
        if !hasPlayer {
          return true;
        }
        log := log + [PlayerDisposed];
        if !hasStream {
          return true;
        }
        log := log + [StreamDisposed];
      }
      hasPlayer := false;
      hasStream := false;
      disposed := true;
    }
  }

  /** As written, a seek the player could not make (-1) makes every later seek be ignored. */
  method SeekAfterFailedSeekAsWritten() returns (first: SeekStep, second: SeekStep)
    ensures first == SeekAwaiting && second == SeekIgnored
  {
    var source := new FlvSource(true);
    source.OpenMedia();
    first := source.Seek();
    var threw := source.CompleteSeekAsWritten(-1);
    second := source.Seek();
  }

  /** As intended, the seek after a failed one goes to the player. */
  method SeekAfterFailedSeek() returns (first: SeekStep, second: SeekStep)
    ensures first == SeekAwaiting && second == SeekAwaiting
  {
    var source := new FlvSource(true);
    source.OpenMedia();
    first := source.Seek();
    var threw := source.CompleteSeek(-1);
    second := source.Seek();
  }

  /**
   * As written, a seek that completes after Dispose reports the seek, throws
   * at end_seek on the missing player and leaves the source seeking, so the
   * next seek is ignored.
   */
  method SeekAfterDisposeAsWritten() returns (threw: bool, next: SeekStep, reported: seq<Report>)
    ensures threw && next == SeekIgnored
    ensures reported == [PlayerDisposed, StreamDisposed, SeekCompleted(5)]
  {
    var source := new FlvSource(true);
    source.OpenMedia();
    var first := source.Seek();
    var disposeThrew := source.DisposeAsWritten(true);
    threw := source.CompleteSeekAsWritten(5);
    next := source.Seek();
    reported := source.log;
  }

  /**
   * As intended, a seek that completes after Dispose reports nothing and
   * ends the seek, so the next seek is not ignored and reaches the
   * missing player.
   */
  method SeekAfterDispose() returns (threw: bool, next: SeekStep, reported: seq<Report>)
    ensures !threw && next == SeekThrew
    ensures reported == [PlayerDisposed, StreamDisposed]
  {
    var source := new FlvSource(true);
    source.OpenMedia();
    var first := source.Seek();
    var disposeThrew := source.Dispose(true);
    threw := source.CompleteSeek(5);
    next := source.Seek();
    reported := source.log;
  }

  /** As written, disposing an opened source twice throws on the second call. */
  method DisposeTwiceAsWritten() returns (firstThrew: bool, secondThrew: bool, released: seq<Report>)
    ensures !firstThrew && secondThrew && released == [PlayerDisposed, StreamDisposed]
  {
    var source := new FlvSource(true);
    source.OpenMedia();
    firstThrew := source.DisposeAsWritten(true);
    secondThrew := source.DisposeAsWritten(true);
    released := source.log;
  }

  /** As intended, the second Dispose does nothing, and the player and stream are released once. */
  method DisposeTwice() returns (firstThrew: bool, secondThrew: bool, released: seq<Report>)
    ensures !firstThrew && !secondThrew && released == [PlayerDisposed, StreamDisposed]
  {
    var source := new FlvSource(true);
    source.OpenMedia();
    firstThrew := source.Dispose(true);
    secondThrew := source.Dispose(true);
    released := source.log;
  }

  /**
   * As written, a source opened again after Dispose has a player but no
   * stream: Dispose disposes the player, throws on the missing stream and
   * keeps the player, so the next Dispose disposes the same player again.
   */
  method DisposeReopenedAsWritten() returns (threw: seq<bool>, released: seq<Report>)
    ensures threw == [false, true, true]
    ensures released == [PlayerDisposed, StreamDisposed, PlayerDisposed, PlayerDisposed]
  {
    var source := new FlvSource(true);
    source.OpenMedia();
    var first := source.DisposeAsWritten(true);
    source.OpenMedia();
    var second := source.DisposeAsWritten(true);
    var third := source.DisposeAsWritten(true);
    threw := [first, second, third];
    released := source.log;
  }
}
