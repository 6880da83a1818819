// flv_parser (core/dawn_player/flv_parser.cpp): the FLV file header, and the
// loop over the tags in a buffer. Each turn of the loop reads an eleven-byte
// tag header, checks the StreamID and the PreviousTagSize that follows the
// body, decodes the body and hands its events to the callbacks; a tag cut
// short by the end of the buffer ends the loop without an error, and
// `bytes_consumed` reports where the last whole tag ended.
//
// The callbacks are std::function objects that close over their owner.
// Here the owner's state is a value of type `H` and the callbacks are one
// function `step` from a state and an event to the callback's boolean
// answer and the next state; which callbacks are set is a field of the parser.

module FlvParser {
  import opened Bytes
  import opened FlvTags

  /** parse_result */
  datatype ParseResult = Ok | Abort | Error

  /** first_tag_offset: the nine-byte header and the first PreviousTagSize. */
  const FirstTagOffset: nat := 13

  const NoCallbacks := Callbacks(false, false, false, false, false, false)

  /** TypeFlagsAudio and TypeFlagsVideo of the header's flag byte. */
  predicate HasAudioTags(flags: Byte)
  {
    (flags / 4) % 2 == 1
  }

  predicate HasVideoTags(flags: Byte)
  {
    flags % 2 == 1
  }

  /**
   * parse_flv_header: the signature "FLV", version 1, at least one of the
   * audio and video flags, and a DataOffset of 9. The second component is
   * `bytes_consumed`.
   */
  function ParseHeader(data: seq<Byte>): (r: (ParseResult, nat))
    ensures r.0 != Abort
    ensures r.1 == if r.0 == Ok then 9 else 0
    ensures r.0 == Ok <==>
      && |data| >= 9
      && data[..4] == [0x46, 0x4c, 0x56, 0x01]
      && (HasAudioTags(data[4]) || HasVideoTags(data[4]))
      && BigEndian(data[5..9]) == 9
  {
    if |data| < 9 then (Error, 0)
    else if data[0] != 0x46 || data[1] != 0x4c || data[2] != 0x56 then (Error, 0)
    else if data[3] != 0x01 then (Error, 0)
    else if !HasAudioTags(data[4]) && !HasVideoTags(data[4]) then (Error, 0)
    else
      Uint32BeValue(data, 5);
      if ToUint32Be(data, 5) != 9 then (Error, 0)
      else (Ok, 9)
  }

  /** The nine header bytes of an FLV version 1 file with the given tag kinds. */
  function HeaderBytes(audio: bool, video: bool): seq<Byte>
  {
    [0x46, 0x4c, 0x56, 0x01, (if audio then 4 else 0) + (if video then 1 else 0), 0, 0, 0, 9]
  }

  /** Any header announcing audio or video is accepted, whatever follows it. */
  lemma HeaderAccepted(audio: bool, video: bool, rest: seq<Byte>)
    requires audio || video
    ensures ParseHeader(HeaderBytes(audio, video) + rest) == (Ok, 9)
  {
    var data := HeaderBytes(audio, video) + rest;
    assert data[..4] == [0x46, 0x4c, 0x56, 0x01];
    assert data[5..9] == [0, 0, 0, 9];
    assert [0, 0, 0, 9][..3] == [0, 0, 0];
    assert [0, 0, 0][..2] == [0, 0];
    assert [0, 0][..1] == [0];
    assert [0][..0] == [];
  }

  // ---------------------------------------------------------------------
  // Framing

  /** What the loop finds at a tag boundary. */
  datatype Framing = Incomplete | StreamIdError | PreviousTagSizeError | Whole(header: TagHeader)

  /**
   * The byte swap applied to a PreviousTagSize that does not match: bytes
   * 0 and 2, and 1 and 3, of the in-memory uint32 trade places, which
   * exchanges its two 16-bit halves.
   */
  function SwapHalves(v: nat): nat
  {
    (v % 0x1_0000) * 0x1_0000 + v / 0x1_0000
  }

  /** On a little-endian host the swap leaves bytes 1, 0, 3, 2 of the field in memory order. */
  lemma SwapHalvesBytes(data: seq<Byte>, i: nat)
    requires i + 4 <= |data|
    ensures SwapHalves(ToUint32Be(data, i)) == LittleEndian([data[i + 1], data[i], data[i + 3], data[i + 2]])
  {
    var hi := (data[i] as int) * 0x100 + data[i + 1] as int;
    var lo := (data[i + 2] as int) * 0x100 + data[i + 3] as int;
    assert ToUint32Be(data, i) == hi * 0x1_0000 + lo;
    DivModUnique(ToUint32Be(data, i), hi, lo, 0x1_0000);
    var m := [data[i + 1], data[i], data[i + 3], data[i + 2]];
    assert LittleEndian(m[3..]) == data[i + 2] as int by {
      assert m[3..][1..] == [];
    }
    assert LittleEndian(m[2..]) == data[i + 3] as int + 256 * data[i + 2] as int by {
      assert m[2..][1..] == m[3..];
    }
    assert LittleEndian(m[1..]) == data[i] as int + 256 * (data[i + 3] as int + 256 * data[i + 2] as int) by {
      assert m[1..][1..] == m[2..];
    }
    assert LittleEndian(m) == data[i + 1] + 256 * LittleEndian(m[1..]);
  }

  /** Swapping twice restores any 32-bit value. */
  lemma SwapHalvesInvolution(v: nat)
    requires v < 0x1_0000_0000
    ensures SwapHalves(SwapHalves(v)) == v
  {
    var hi, lo := v / 0x1_0000, v % 0x1_0000;
    DivModUnique(SwapHalves(v), lo, hi, 0x1_0000);
  }

  /** A PreviousTagSize is the tag size; script tags may also carry it half-swapped. */
  predicate PreviousTagSizeAccepted(tagType: Byte, dataSize: nat, previousTagSize: nat)
  {
    previousTagSize == dataSize + 11 || (tagType == 18 && SwapHalves(previousTagSize) == dataSize + 11)
  }

  /** The tag at `offset`: cut short, refused, or whole with its body in the buffer. */
  function Frame(data: seq<Byte>, offset: nat): (r: Framing)
    ensures r.Whole? ==> r.header.dataOffset == offset + 11 && InBuffer(data, r.header)
  {
    if |data| <= offset + 11 then Incomplete
    else if ToUint24Be(data, offset + 8) != 0 then StreamIdError
    else
      var dataSize := ToUint24Be(data, offset + 1);
      if |data| <= offset + 11 + dataSize + 4 then Incomplete
      else if !PreviousTagSizeAccepted(data[offset], dataSize, ToUint32Be(data, offset + 11 + dataSize)) then
        PreviousTagSizeError
      else
        Whole(TagHeader(data[offset], offset + 11, dataSize, ToUint24Be(data, offset + 4), data[offset + 7]))
  }

  /** Where the next tag starts: after the body and its four-byte PreviousTagSize. */
  function NextTag(h: TagHeader): nat
  {
    h.dataOffset + h.dataSize + 4
  }

  /** The tag header read field by field, each read guarded by a size check. */
  method ReadTagHeader(data: seq<Byte>, start: nat) returns (r: Framing)
    ensures r == Frame(data, start)
  {
    var offset := start;
    if |data| <= offset + 1 {
      return Incomplete;
    }
    var tagType := data[offset];
    offset := offset + 1;
    if |data| <= offset + 3 {
      return Incomplete;
    }
    var dataSize := ToUint24Be(data, offset);
    offset := offset + 3;
    if |data| <= offset + 3 {
      return Incomplete;
    }
    var timestamp := ToUint24Be(data, offset);
    offset := offset + 3;
    if |data| <= offset + 1 {
      return Incomplete;
    }
    var timestampExtended := data[offset];
    offset := offset + 1;
    if |data| <= offset + 3 {
      return Incomplete;
    }
    if ToUint24Be(data, offset) != 0 {
      return StreamIdError;
    }
    offset := offset + 3;
    if |data| <= offset + dataSize + 4 {
      return Incomplete;
    }
    var previousTagSize := ToUint32Be(data, offset + dataSize);
    if previousTagSize != dataSize + 11 {
      previousTagSize := SwapHalves(previousTagSize);
      if tagType != 18 || previousTagSize != dataSize + 11 {
        return PreviousTagSizeError;
      }
    }
    return Whole(TagHeader(tagType, offset, dataSize, timestamp, timestampExtended));
  }

  // ---------------------------------------------------------------------
  // Delivering events

  /**
   * The events of one tag handed to the callbacks in order; the first
   * callback that answers false stops the delivery.
   */
  function Deliver<H>(events: seq<Event>, h: H, step: (H, Event) -> (bool, H)): (bool, H)
    decreases |events|
  {
    if |events| == 0 then (true, h)
    else
      var (accepted, h1) := step(h, events[0]);
      if !accepted then (false, h1) else Deliver(events[1..], h1, step)
  }

  method DeliverEvents<H>(events: seq<Event>, h0: H, step: (H, Event) -> (bool, H)) returns (accepted: bool, h: H)
    ensures (accepted, h) == Deliver(events, h0, step)
  {
    h := h0;
    var i := 0;
    while i < |events|
      invariant 0 <= i <= |events|
      invariant Deliver(events[i..], h, step) == Deliver(events, h0, step)
    {
      assert events[i..][1..] == events[i + 1..];
      var (ok, h1) := step(h, events[i]);
      h := h1;
      if !ok {
        return false, h;
      }
      i := i + 1;
    }
    return true, h;
  }

  // ---------------------------------------------------------------------
  // The tag loop

  /** The outcome of parse_flv_tags: the result, `bytes_consumed`, the length size and the owner's state. */
  datatype TagsResult<H> = TagsResult(result: ParseResult, consumed: nat, lengthSize: nat, state: H)

  /** parse_flv_tags from the tag boundary `offset` on. */
  function ParseTagsFrom<H>(data: seq<Byte>, offset: nat, lengthSize: nat, cb: Callbacks, h: H,
                            step: (H, Event) -> (bool, H)): (r: TagsResult<H>)
    requires ValidLengthSize(lengthSize)
    ensures ValidLengthSize(r.lengthSize)
    decreases |data| - offset
  {
    match Frame(data, offset)
    case Incomplete => TagsResult(Ok, offset, lengthSize, h)
    case StreamIdError => TagsResult(Error, offset, lengthSize, h)
    case PreviousTagSizeError => TagsResult(Error, offset, lengthSize, h)
    case Whole(header) =>
      var outcome := TagBody(data, header, lengthSize, cb);
      var (accepted, h1) := Deliver(outcome.events, h, step);
      if !accepted then TagsResult(Abort, offset, outcome.lengthSize, h1)
      else if outcome.failed then TagsResult(Error, offset, outcome.lengthSize, h1)
      else ParseTagsFrom(data, NextTag(header), outcome.lengthSize, cb, h1, step)
  }

  /** flv_parser: the NAL length size it remembers and the callbacks that are set. */
  class Parser {
    var lengthSize: nat
    var callbacks: Callbacks

    predicate Valid()
      reads this
    {
      ValidLengthSize(lengthSize)
    }

    constructor ()
      ensures Valid() && lengthSize == 0 && callbacks == NoCallbacks
    {
      lengthSize := 0;
      callbacks := NoCallbacks;
    }

    /** parse_flv_header, which leaves the parser as it is. */
    method ParseFlvHeader(data: seq<Byte>) returns (result: ParseResult, consumed: nat)
      ensures (result, consumed) == ParseHeader(data)
    {
      result, consumed := Error, 0;
      if |data| < 9 {
        return;
      }
      if data[0] != 0x46 || data[1] != 0x4c || data[2] != 0x56 {
        return;
      }
      if data[3] != 0x01 {
        return;
      }
      if !HasAudioTags(data[4]) && !HasVideoTags(data[4]) {
        return;
      }
      if ToUint32Be(data, 5) != 9 {
        return;
      }
      result, consumed := Ok, 9;
    }

    /** parse_flv_tags over `data`, handing events to `step` from state `h0` on. */
    method ParseTags<H>(data: seq<Byte>, h0: H, step: (H, Event) -> (bool, H))
      returns (result: ParseResult, consumed: nat, h: H)
      requires Valid()
      modifies this
      ensures Valid() && callbacks == old(callbacks)
      ensures ParseTagsFrom(data, 0, old(lengthSize), callbacks, h0, step) == TagsResult(result, consumed, lengthSize, h)
    {
      consumed, h := 0, h0;
      ghost var target := ParseTagsFrom(data, 0, lengthSize, callbacks, h0, step);
      while true
        invariant Valid() && callbacks == old(callbacks)
        invariant ParseTagsFrom(data, consumed, lengthSize, callbacks, h, step) == target
        decreases |data| - consumed
      {
        var framing := ReadTagHeader(data, consumed);
        if framing.Incomplete? {
          return Ok, consumed, h;
        } else if !framing.Whole? {
          return Error, consumed, h;
        }
        var header := framing.header;
        var outcome := DecodeTagBody(data, header, lengthSize, callbacks);
        lengthSize := outcome.lengthSize;
        var accepted;
        accepted, h := DeliverEvents(outcome.events, h, step);
        if !accepted {
          return Abort, consumed, h;
        }
        if outcome.failed {
          return Error, consumed, h;
        }
        consumed := NextTag(header);
      }
    }

    /** reset: forget the length size and clear every callback. */
    method Reset()
      modifies this
      ensures Valid() && lengthSize == 0 && callbacks == NoCallbacks
    {
      lengthSize := 0;
      callbacks := NoCallbacks;
    }

    /** reset as written: the HEVC configuration callback is left set. */
    method ResetAsWritten()
      modifies this
      ensures Valid() && lengthSize == 0
      ensures callbacks == NoCallbacks.(hevcConfig := old(callbacks.hevcConfig))
    {
      lengthSize := 0;
      callbacks := callbacks.(scriptTag := false, audioConfig := false, avcConfig := false,
                              audioSample := false, videoSample := false);
    }
  }

  /** A parser whose HEVC callback was set still has it after reset as written. */
  method ResetAsWrittenKeepsHevcCallback() returns (kept: bool)
    ensures kept
  {
    var p := new Parser();
    p.callbacks := p.callbacks.(hevcConfig := true);
    p.ResetAsWritten();
    kept := p.callbacks.hevcConfig;
  }

  // ---------------------------------------------------------------------
  // Properties of the tag loop

  /** bytes_consumed stays put or moves to a tag boundary strictly inside the buffer. */
  lemma {:induction false} ConsumedInside<H>(data: seq<Byte>, offset: nat, lengthSize: nat, cb: Callbacks, h: H,
                                             step: (H, Event) -> (bool, H))
    requires ValidLengthSize(lengthSize)
    ensures var r := ParseTagsFrom(data, offset, lengthSize, cb, h, step);
      r.consumed == offset || offset < r.consumed < |data|
    decreases |data| - offset
  {
    match Frame(data, offset)
    case Incomplete =>
    case StreamIdError =>
    case PreviousTagSizeError =>
    case Whole(header) =>
      var outcome := TagBody(data, header, lengthSize, cb);
      var (accepted, h1) := Deliver(outcome.events, h, step);
      if accepted && !outcome.failed {
        ConsumedInside(data, NextTag(header), outcome.lengthSize, cb, h1, step);
      }
  }

  /** `to` is reached from `from` by a run of whole tags. */
  predicate WholeTags(data: seq<Byte>, from: nat, to: nat)
    decreases |data| - from
  {
    from == to || (Frame(data, from).Whole? && WholeTags(data, NextTag(Frame(data, from).header), to))
  }

  /** bytes_consumed always ends a run of whole tags: no tag is ever half consumed. */
  lemma {:induction false} ConsumedWholeTags<H>(data: seq<Byte>, offset: nat, lengthSize: nat, cb: Callbacks, h: H,
                                                step: (H, Event) -> (bool, H))
    requires ValidLengthSize(lengthSize)
    ensures WholeTags(data, offset, ParseTagsFrom(data, offset, lengthSize, cb, h, step).consumed)
    decreases |data| - offset
  {
    match Frame(data, offset)
    case Incomplete =>
    case StreamIdError =>
    case PreviousTagSizeError =>
    case Whole(header) =>
      var outcome := TagBody(data, header, lengthSize, cb);
      var (accepted, h1) := Deliver(outcome.events, h, step);
      if accepted && !outcome.failed {
        ConsumedWholeTags(data, NextTag(header), outcome.lengthSize, cb, h1, step);
      }
  }

  /** Fewer than twelve bytes hold no tag: nothing is consumed and nothing is called. */
  lemma ShortInputIsOk<H>(data: seq<Byte>, offset: nat, lengthSize: nat, cb: Callbacks, h: H,
                          step: (H, Event) -> (bool, H))
    requires ValidLengthSize(lengthSize) && |data| <= offset + 11
    ensures ParseTagsFrom(data, offset, lengthSize, cb, h, step) == TagsResult(Ok, offset, lengthSize, h)
  {
  }

  /** A StreamID other than 0 is an error before any callback runs. */
  lemma NonZeroStreamIdIsError<H>(data: seq<Byte>, offset: nat, lengthSize: nat, cb: Callbacks, h: H,
                                  step: (H, Event) -> (bool, H))
    requires ValidLengthSize(lengthSize) && offset + 11 < |data|
    requires BigEndian(data[offset + 8..offset + 11]) != 0
    ensures ParseTagsFrom(data, offset, lengthSize, cb, h, step) == TagsResult(Error, offset, lengthSize, h)
  {
    Uint24BeValue(data, offset + 8);
  }

  /** A whole tag whose PreviousTagSize fits neither reading is an error. */
  lemma BadPreviousTagSizeIsError<H>(data: seq<Byte>, offset: nat, lengthSize: nat, cb: Callbacks, h: H,
                                     step: (H, Event) -> (bool, H), dataSize: nat)
    requires ValidLengthSize(lengthSize)
    requires offset + 11 + dataSize + 4 < |data| && BigEndian(data[offset + 8..offset + 11]) == 0
    requires dataSize == BigEndian(data[offset + 1..offset + 4])
    requires BigEndian(data[offset + 11 + dataSize..offset + 15 + dataSize]) != dataSize + 11
    requires data[offset] != 18
    ensures ParseTagsFrom(data, offset, lengthSize, cb, h, step) == TagsResult(Error, offset, lengthSize, h)
  {
    Uint24BeValue(data, offset + 8);
    Uint24BeValue(data, offset + 1);
    Uint32BeValue(data, offset + 11 + dataSize);
    assert Frame(data, offset) == PreviousTagSizeError;
  }

  /** A whole tag of a reserved type is stepped over: nothing is called, nothing changes. */
  lemma UnknownTagSkipped<H>(data: seq<Byte>, offset: nat, lengthSize: nat, cb: Callbacks, h: H,
                             step: (H, Event) -> (bool, H))
    requires ValidLengthSize(lengthSize) && Frame(data, offset).Whole?
    requires data[offset] != 8 && data[offset] != 9 && data[offset] != 18
    ensures ParseTagsFrom(data, offset, lengthSize, cb, h, step)
         == ParseTagsFrom(data, NextTag(Frame(data, offset).header), lengthSize, cb, h, step)
  {
  }

  /** A callback answering false aborts the loop; bytes_consumed stays at the tag's start. */
  lemma RejectionAborts<H>(data: seq<Byte>, offset: nat, lengthSize: nat, cb: Callbacks, h: H,
                           step: (H, Event) -> (bool, H))
    requires ValidLengthSize(lengthSize) && Frame(data, offset).Whole?
    requires !Deliver(TagBody(data, Frame(data, offset).header, lengthSize, cb).events, h, step).0
    ensures ParseTagsFrom(data, offset, lengthSize, cb, h, step).result == Abort
    ensures ParseTagsFrom(data, offset, lengthSize, cb, h, step).consumed == offset
  {
  }

  /** With no callback set no event is produced, so the owner's state is never touched. */
  lemma {:induction false} NoCallbacksNoEvents<H>(data: seq<Byte>, offset: nat, lengthSize: nat, h: H,
                                                  step: (H, Event) -> (bool, H))
    requires ValidLengthSize(lengthSize)
    ensures ParseTagsFrom(data, offset, lengthSize, NoCallbacks, h, step).state == h
    ensures ParseTagsFrom(data, offset, lengthSize, NoCallbacks, h, step).result != Abort
    decreases |data| - offset
  {
    match Frame(data, offset)
    case Incomplete =>
    case StreamIdError =>
    case PreviousTagSizeError =>
    case Whole(header) =>
      var outcome := TagBody(data, header, lengthSize, NoCallbacks);
      TagBodySilent(data, header, lengthSize);
      assert Deliver(outcome.events, h, step) == (true, h);
      if !outcome.failed {
        NoCallbacksNoEvents(data, NextTag(header), outcome.lengthSize, h, step);
      }
  }

  lemma TagBodySilent(data: seq<Byte>, header: TagHeader, lengthSize: nat)
    requires InBuffer(data, header) && ValidLengthSize(lengthSize)
    ensures TagBody(data, header, lengthSize, NoCallbacks).events == []
  {
  }
}
