// The page of the UWP demo application (Demo/UWP/DawnPlayerDemo/MainPage.xaml.cs).
// It keeps the media source and the file stream of what is playing. Opening a
// file first tears down what plays, then takes a ticket from the 32-bit
// counter `playTaskID` and awaits two asynchronous steps: opening the file
// and creating the media source. A continuation whose ticket is no longer the
// counter's value has been superseded by a later open: it disposes what it
// obtained and installs nothing. Unloading the page, the end of the media and
// a media failure tear down the same way.
//
// The handles are numbers chosen by the environment; what the page does with
// them (disposing, installing, showing a message) is appended to `actions`.
// Each `await` is a step boundary: the file picker, the file opening and the
// media source creation are parameters of the step that follows them.

module DemoPage {
  import opened Wrappers

  const Uint32Modulus: nat := 0x1_0000_0000

  datatype Action =
    | ClearMediaSource
    | DisposeSource(source: nat)
    | DisposeStream(stream: nat)
    | ShowMessage(text: string)
    | SetMediaStreamSource(source: nat)

  const OpenFailedMessage := "Failed to open media"
  const MediaEndMessage := "OnMediaEnd"
  const MediaFailedMessage := "OnMediaFailed"

  /** What the page holds while it plays; both handles are installed and torn down together. */
  datatype Playback = Idle | Playing(stream: nat, source: nat)

  /**
   * The teardown shared by the open, unload, end and failure handlers: the
   * media source is disposed before the stream, each exactly once.
   */
  function Teardown(p: Playback): (r: seq<Action>)
    ensures p.Idle? <==> r == []
    ensures p.Playing? ==> |r| == 2 && r[0] == DisposeSource(p.source) && r[1] == DisposeStream(p.stream)
  {
    match p
    case Idle => []
    case Playing(stream, source) => [DisposeSource(source), DisposeStream(stream)]
  }

  /** How a continuation of OpenLocalFile ends. */
  datatype Outcome =
    | Proceed
    | Installed(stream: nat, source: nat)
    | Abandoned(actions: seq<Action>)

  /**
   * After the file has been opened (or failed to open, `fileStream` None):
   * a superseded ticket disposes the stream it got; a current one with no
   * stream shows a message; otherwise the open goes on.
   */
  function AfterFileOpened(current: bool, fileStream: Option<nat>): (r: Outcome)
    ensures !r.Installed?
    ensures r.Proceed? <==> current && fileStream.Some?
    ensures r.Abandoned? && fileStream.Some? ==>
      multiset(r.actions)[DisposeStream(fileStream.value)] == 1 && !current
    ensures r.Abandoned? ==> (ShowMessage(OpenFailedMessage) in r.actions <==> current)
    ensures r.Abandoned? ==> forall a :: a in r.actions ==> !a.SetMediaStreamSource? && !a.DisposeSource?
  {
    if !current then
      Abandoned(if fileStream.Some? then [DisposeStream(fileStream.value)] else [])
    else if fileStream.None? then
      Abandoned([ShowMessage(OpenFailedMessage)])
    else
      Proceed
  }

  /**
   * After the media source creation returned `created` (None: it threw). A
   * throw disposes the stream at once; a superseded ticket then disposes
   * whatever it still holds, the source before the stream; a current ticket
   * installs both, or shows a message when the creation threw.
   */
  function AfterSourceCreated(current: bool, fileStream: nat, created: Option<nat>): (r: Outcome)
    ensures !r.Proceed?
    ensures r.Installed? <==> current && created.Some?
    ensures r.Installed? ==> r.stream == fileStream && r.source == created.value
    // nothing leaks and nothing is disposed twice
    ensures r.Abandoned? ==> multiset(r.actions)[DisposeStream(fileStream)] == 1
    ensures r.Abandoned? && created.Some? ==> multiset(r.actions)[DisposeSource(created.value)] == 1
    ensures r.Abandoned? && created.Some? ==>
      r.actions == [DisposeSource(created.value), DisposeStream(fileStream)]
    ensures r.Abandoned? ==> (ShowMessage(OpenFailedMessage) in r.actions <==> current)
  {
    var threw := if created.None? then [DisposeStream(fileStream)] else [];
    if !current then
      Abandoned(threw + (if created.Some? then [DisposeSource(created.value), DisposeStream(fileStream)] else []))
    else if created.None? then
      Abandoned(threw + [ShowMessage(OpenFailedMessage)])
    else
      Installed(fileStream, created.value)
  }

  class MainPage {
    var playTaskID: nat
    var playback: Playback
    var actions: seq<Action>

    ghost predicate Valid()
      reads this
    {
      playTaskID < Uint32Modulus
    }

    constructor ()
      ensures Valid() && playTaskID == 0 && playback == Idle && actions == []
    {
      playTaskID := 0;
      playback := Idle;
      actions := [];
    }

    /** Disposes and forgets the source, then the stream. */
    method Release()
      modifies this
      ensures playback == Idle && playTaskID == old(playTaskID)
      ensures actions == old(actions) + Teardown(old(playback))
    {
      actions := actions + Teardown(playback);
      playback := Idle;
    }

    /** MainPage_Unloaded; the media element is absent only before the page is built. */
    method Unloaded(hasMediaElement: bool)
      requires Valid()
      modifies this
      ensures Valid() && playback == Idle && playTaskID == old(playTaskID)
      ensures actions == old(actions) + (if hasMediaElement then [ClearMediaSource] else []) + Teardown(old(playback))
    {
      if hasMediaElement {
        actions := actions + [ClearMediaSource];
      }
      Release();
    }

    /** OnMediaEnd and OnMediaFailed: the teardown, then the handler's message. */
    method MediaStopped(failed: bool)
      requires Valid()
      modifies this
      ensures Valid() && playback == Idle && playTaskID == old(playTaskID)
      ensures actions == old(actions) + [ClearMediaSource] + Teardown(old(playback))
                         + [ShowMessage(if failed then MediaFailedMessage else MediaEndMessage)]
    {
      actions := actions + [ClearMediaSource];
      Release();
      actions := actions + [ShowMessage(if failed then MediaFailedMessage else MediaEndMessage)];
    }

    /**
     * The first step of OpenLocalFile, once the picker has returned: a
     * cancelled picker changes nothing; a picked file tears down what plays
     * and takes the next ticket of the 32-bit counter.
     */
    method StartOpen(filePicked: bool) returns (ticket: Option<nat>)
      requires Valid()
      modifies this
      ensures Valid()
      ensures ticket.None? <==> !filePicked
      ensures !filePicked ==> playTaskID == old(playTaskID) && playback == old(playback) && actions == old(actions)
      ensures filePicked ==>
        && playTaskID == (old(playTaskID) + 1) % Uint32Modulus
        && ticket == Some(playTaskID)
        && playTaskID != old(playTaskID)
        && playback == Idle
        && actions == old(actions) + [ClearMediaSource] + Teardown(old(playback))
    {
      if !filePicked {
        return None;
      }
      actions := actions + [ClearMediaSource];
      Release();
      playTaskID := (playTaskID + 1) % Uint32Modulus;
      ticket := Some(playTaskID);
    }

    /** The step after the file opening; `proceed` tells whether the open goes on. */
    method FileOpened(ticket: nat, fileStream: Option<nat>) returns (proceed: bool)
      modifies this
      ensures var r := AfterFileOpened(ticket == old(playTaskID), fileStream);
        && (proceed <==> r.Proceed?)
        && actions == old(actions) + (if r.Abandoned? then r.actions else [])
      ensures playTaskID == old(playTaskID) && playback == old(playback)
    {
      var r := AfterFileOpened(ticket == playTaskID, fileStream);
      if r.Abandoned? {
        actions := actions + r.actions;
      }
      proceed := r.Proceed?;
    }

    /** The last step of OpenLocalFile, after the media source creation. */
    method SourceCreated(ticket: nat, fileStream: nat, created: Option<nat>)
      modifies this
      ensures playTaskID == old(playTaskID)
      ensures var r := AfterSourceCreated(ticket == old(playTaskID), fileStream, created);
        && (r.Installed? ==> playback == Playing(r.stream, r.source)
                             && actions == old(actions) + [SetMediaStreamSource(r.source)])
        && (r.Abandoned? ==> playback == old(playback) && actions == old(actions) + r.actions)
    {
      var r := AfterSourceCreated(ticket == playTaskID, fileStream, created);
      if r.Installed? {
        playback := Playing(r.stream, r.source);
        actions := actions + [SetMediaStreamSource(r.source)];
      } else if r.Abandoned? {
        actions := actions + r.actions;
      }
    }
  }

  /**
   * Two opens in a row: the first one's file arrives only after the second
   * has installed its own; the stale stream is disposed and the second open
   * stays installed.
   */
  method StaleFileIsDisposed() returns (playback: Playback, tail: seq<Action>)
    ensures playback == Playing(20, 21)
    ensures tail == [DisposeStream(10)]
  {
    var page := new MainPage();
    var first := page.StartOpen(true);
    var second := page.StartOpen(true);
    var go := page.FileOpened(second.value, Some(20));
    page.SourceCreated(second.value, 20, Some(21));
    var n := |page.actions|;
    go := page.FileOpened(first.value, Some(10));
    playback := page.playback;
    tail := page.actions[n..];
  }

  /**
   * The first open has its file when a second open starts; the source it
   * then creates is disposed with its stream and nothing is installed, while
   * the second open is still pending.
   */
  method StaleSourceIsDisposed() returns (playback: Playback, tail: seq<Action>)
    ensures playback == Idle
    ensures tail == [DisposeSource(11), DisposeStream(10)]
  {
    var page := new MainPage();
    var first := page.StartOpen(true);
    var go := page.FileOpened(first.value, Some(10));
    var second := page.StartOpen(true);
    var n := |page.actions|;
    page.SourceCreated(first.value, 10, Some(11));
    playback := page.playback;
    tail := page.actions[n..];
  }

  /** A later open tears down what an earlier one installed, source first. */
  method ReopenTearsDown() returns (actions: seq<Action>)
    ensures actions == [ClearMediaSource, SetMediaStreamSource(11), ClearMediaSource,
                        DisposeSource(11), DisposeStream(10)]
  {
    var page := new MainPage();
    var first := page.StartOpen(true);
    var go := page.FileOpened(first.value, Some(10));
    page.SourceCreated(first.value, 10, Some(11));
    var second := page.StartOpen(true);
    actions := page.actions;
  }
}
