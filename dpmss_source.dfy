// The Silverlight adapter of dpmss/FlvMediaStreamSource.cs: a
// MediaStreamSource that forwards the runtime's requests to the threaded
// player and the player's events back to the runtime. Opening creates the
// player and subscribes three handlers to its events (a sample completed, a
// seek completed, an error occurred); closing unsubscribes them and drops
// the player. A request for a sample is the threaded engine's
// get_sample_async; the player answers later by raising its event, which
// reaches the adapter only while its handler is subscribed.
//
// What the adapter reports to the runtime, and the calls it makes on the
// player, are appended to `log`. A call on a null player throws a
// NullReferenceException in the source; here it returns `threw`.

module DpmssSource {
  import opened Bytes
  import opened Wrappers
  import FlvParser
  import ThreadedPlayer

  datatype MediaStreamType = AudioType | VideoType | ScriptType

  /** The three handlers OpenMediaAsync subscribes to the player's events. */
  datatype Handler = SampleHandler | SeekHandler | ErrorHandler

  const AllHandlers: set<Handler> := {SampleHandler, SeekHandler, ErrorHandler}

  datatype Report =
    | OpenCompleted(info: ThreadedPlayer.MediaInfo)
    | SampleCompleted(stream: ThreadedPlayer.SampleType, data: seq<Byte>, timestamp: int)
    | EndOfStreamSample(stream: ThreadedPlayer.SampleType)
    | ErrorOccurred(description: string)
    | SeekCompleted(time: int)
    | PlayerSeek(time: int)
    | PlayerClosed

  const OpenErrorMessage := "Failed to open flv file."

  /**
   * What open_async completes with: ok with the media info it filled in,
   * error, or abort, which the else-if chain passes over.
   */
  datatype OpenResult = OpenOk(info: ThreadedPlayer.MediaInfo) | OpenError | OpenAbort

  /** The sample type a runtime request asks the player for; script requests have none. */
  function SampleTypeOf(t: MediaStreamType): (r: Option<ThreadedPlayer.SampleType>)
    ensures r.None? <==> t == ScriptType
    ensures r == Some(ThreadedPlayer.Audio) <==> t == AudioType
    ensures r == Some(ThreadedPlayer.Video) <==> t == VideoType
  {
    match t
    case ScriptType => None
    case AudioType => Some(ThreadedPlayer.Audio)
    case VideoType => Some(ThreadedPlayer.Video)
  }

  /**
   * OnGetSampleCompleted: a sample is reported on its stream with its time
   * and data; no sample information means the end of that stream.
   */
  function SampleReport(t: ThreadedPlayer.SampleType, info: Option<ThreadedPlayer.SampleInfo>): (r: Report)
    ensures info.None? <==> r == EndOfStreamSample(t)
    ensures info.Some? ==> r == SampleCompleted(t, info.value.data, info.value.timestamp)
  {
    if info.Some? then SampleCompleted(t, info.value.data, info.value.timestamp) else EndOfStreamSample(t)
  }

  class FlvSource {
    var player: ThreadedPlayer.Engine?
    /** the handlers subscribed to `player`'s events */
    var handlers: set<Handler>
    var isClosed: bool
    var log: seq<Report>

    constructor ()
      ensures player == null && handlers == {} && !isClosed && log == []
    {
      player := null;
      handlers := {};
      isClosed := false;
      log := [];
    }

    /** Wrap: a null stream is refused, any other is wrapped in a new source. */
    static method Wrap(streamGiven: bool) returns (source: FlvSource?)
      ensures source == null <==> !streamGiven
      ensures source != null ==> fresh(source) && source.player == null && source.handlers == {}
      ensures source != null ==> !source.isClosed && source.log == []
    {
      if !streamGiven {
        return null;
      }
      source := new FlvSource();
    }

    /** The first half of OpenMediaAsync: a new player with the three handlers subscribed. */
    method OpenMedia()
      modifies this
      ensures player != null && fresh(player) && player.Valid() && fresh(player.parser)
      ensures player.pending == 0 && player.session == ThreadedPlayer.InitialSession
      ensures player.parser.callbacks == FlvParser.NoCallbacks
      ensures handlers == AllHandlers && isClosed == old(isClosed) && log == old(log)
    {
      player := new ThreadedPlayer.Engine();
      handlers := AllHandlers;
    }

    /**
     * The rest of OpenMediaAsync: discarded once the source is closed; a
     * successful open is reported with its audio and video streams, a failed
     * one as an error, and an aborted one not at all.
     */
    method CompleteOpen(result: OpenResult)
      modifies this
      ensures old(isClosed) || result.OpenAbort? ==> log == old(log)
      ensures !old(isClosed) && result.OpenOk? ==> log == old(log) + [OpenCompleted(result.info)]
      ensures !old(isClosed) && result.OpenError? ==> log == old(log) + [ErrorOccurred(OpenErrorMessage)]
      ensures player == old(player) && handlers == old(handlers) && isClosed == old(isClosed)
    {
      if isClosed {
        return;
      }
      match result
      case OpenOk(info) =>
        log := log + [OpenCompleted(info)];
      case OpenError =>
        log := log + [ErrorOccurred(OpenErrorMessage)];
      case OpenAbort =>
    }

    /**
     * GetSampleAsync: a script request is dropped; an audio or video request
     * is counted by the player, which starts a worker when it was idle.
     */
    method GetSample(t: MediaStreamType) returns (threw: bool, startsWorker: bool)
      requires player != null ==> player.Valid()
      modifies player
      ensures t == ScriptType ==> !threw && !startsWorker && (player != null ==> unchanged(player))
      ensures t != ScriptType ==> threw == (player == null)
      ensures t != ScriptType && player != null ==>
        && player.Valid()
        && player.pending == (old(player.pending) + ThreadedPlayer.Unit(SampleTypeOf(t).value)) % ThreadedPlayer.Uint32Modulus
        && (startsWorker <==> old(player.pending) == 0)
        && player.session == old(player.session) && player.readBuffer == old(player.readBuffer)
    {
      threw, startsWorker := false, false;
      var sampleType := SampleTypeOf(t);
      if sampleType.None? {
        return;
      }
      if player == null {
        return true, false;
      }
      startsWorker := player.GetSampleAsync(sampleType.value);
    }

    /** SeekAsync: forwarded to the player unchanged. */
    method Seek(seekToTime: int) returns (threw: bool)
      modifies this
      ensures threw <==> player == null
      ensures log == old(log) + (if threw then [] else [PlayerSeek(seekToTime)])
      ensures player == old(player) && handlers == old(handlers) && isClosed == old(isClosed)
    {
      if player == null {
        return true;
      }
      log := log + [PlayerSeek(seekToTime)];
      threw := false;
    }

    /** CloseMedia: close the player, unsubscribe the three handlers, drop the player. */
    method CloseMedia() returns (threw: bool)
      modifies this
      ensures threw <==> old(player) == null
      ensures threw ==> log == old(log) && handlers == old(handlers) && isClosed == old(isClosed)
      ensures !threw ==> log == old(log) + [PlayerClosed] && handlers == {} && player == null && isClosed
    {
      if player == null {
        return true;
      }
      log := log + [PlayerClosed];
      handlers := handlers - {SampleHandler} - {SeekHandler} - {ErrorHandler};
      assert forall h :: h !in handlers by {
        forall h | h in handlers ensures false {
          match h
          case SampleHandler =>
          case SeekHandler =>
          case ErrorHandler =>
        }
      }
      player := null;
      isClosed := true;
      threw := false;
    }

    /** get_sample_competed_event raised by the player: handled only while subscribed. */
    method SampleEvent(t: ThreadedPlayer.SampleType, info: Option<ThreadedPlayer.SampleInfo>)
      modifies this
      ensures log == old(log) + (if SampleHandler in handlers then [SampleReport(t, info)] else [])
      ensures player == old(player) && handlers == old(handlers) && isClosed == old(isClosed)
    {
      if SampleHandler in handlers {
        log := log + [SampleReport(t, info)];
      }
    }

    /** seek_completed_event raised by the player: the time is reported as it is. */
    method SeekEvent(seekToTime: int)
      modifies this
      ensures log == old(log) + (if SeekHandler in handlers then [SeekCompleted(seekToTime)] else [])
      ensures player == old(player) && handlers == old(handlers) && isClosed == old(isClosed)
    {
      if SeekHandler in handlers {
        log := log + [SeekCompleted(seekToTime)];
      }
    }

    /** error_occured_event raised by the player: the description is reported as it is. */
    method ErrorEvent(description: string)
      modifies this
      ensures log == old(log) + (if ErrorHandler in handlers then [ErrorOccurred(description)] else [])
      ensures player == old(player) && handlers == old(handlers) && isClosed == old(isClosed)
    {
      if ErrorHandler in handlers {
        log := log + [ErrorOccurred(description)];
      }
    }
  }

  /**
   * After CloseMedia the player's events no longer reach the runtime, and an
   * open that completes afterwards is discarded.
   */
  method NothingReportedAfterClose(info: ThreadedPlayer.SampleInfo, openResult: OpenResult)
    returns (reports: seq<Report>)
    ensures reports == [PlayerClosed]
  {
    var source := new FlvSource();
    source.OpenMedia();
    var _ := source.CloseMedia();
    source.CompleteOpen(openResult);
    source.SampleEvent(info.kind, Some(info));
    source.SeekEvent(0);
    source.ErrorEvent("error");
    reports := source.log;
  }

  /** The first audio request of an idle player starts its worker; a second one while it runs does not. */
  method FirstRequestStartsWorker() returns (first: bool, second: bool, pending: nat)
    ensures first && !second && pending == ThreadedPlayer.Packed(1, 1)
  {
    var source := new FlvSource();
    source.OpenMedia();
    var _, s1 := source.GetSample(AudioType);
    var _, s2 := source.GetSample(VideoType);
    first, second := s1, s2;
    pending := source.player.pending;
  }
}
