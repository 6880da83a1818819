// The sample objects of the older threaded engine (dawn_player/samples.cpp):
// an audio sample is a timestamp and a payload, a video sample also has a
// decoding time. Copies duplicate every field; moves hand the payload over
// and zero the times of the object moved from. A moved-from std::vector is
// modelled as empty.

module Samples {
  import opened Bytes

  class AudioSample {
    var timestamp: int
    var data: seq<Byte>

    constructor ()
      ensures timestamp == 0 && data == []
    {
      timestamp := 0;
      data := [];
    }

    /** The copy constructor. */
    constructor Copy(other: AudioSample)
      ensures timestamp == other.timestamp && data == other.data
    {
      timestamp := other.timestamp;
      data := other.data;
    }

    /** The move constructor: `other` keeps neither its time nor its payload. */
    constructor Move(other: AudioSample)
      modifies other
      ensures timestamp == old(other.timestamp) && data == old(other.data)
      ensures other.timestamp == 0 && other.data == []
    {
      timestamp := other.timestamp;
      data := other.data;
      new;
      other.timestamp := 0;
      other.data := [];
    }

    /** Copy assignment, which returns the object assigned to. */
    method CopyAssign(other: AudioSample) returns (self: AudioSample)
      modifies this
      ensures self == this
      ensures timestamp == old(other.timestamp) && data == old(other.data)
      ensures other != this ==> other.timestamp == old(other.timestamp) && other.data == old(other.data)
    {
      timestamp := other.timestamp;
      data := other.data;
      return this;
    }

    /**
     * Move assignment. Assigning an object to itself goes through the same
     * three steps and so ends with time 0 and no payload.
     */
    method MoveAssign(other: AudioSample) returns (self: AudioSample)
      modifies this, other
      ensures self == this
      ensures other != this ==> timestamp == old(other.timestamp) && data == old(other.data)
      ensures other.timestamp == 0 && other.data == []
    {
      timestamp := other.timestamp;
      data := other.data;
      other.data := [];
      other.timestamp := 0;
      return this;
    }
  }

  class VideoSample {
    var dts: int
    var timestamp: int
    var data: seq<Byte>

    constructor ()
      ensures dts == 0 && timestamp == 0 && data == []
    {
      dts := 0;
      timestamp := 0;
      data := [];
    }

    /** The copy constructor. */
    constructor Copy(other: VideoSample)
      ensures dts == other.dts && timestamp == other.timestamp && data == other.data
    {
      dts := other.dts;
      timestamp := other.timestamp;
      data := other.data;
    }

    /** The move constructor: `other` keeps neither its times nor its payload. */
    constructor Move(other: VideoSample)
      modifies other
      ensures dts == old(other.dts) && timestamp == old(other.timestamp) && data == old(other.data)
      ensures other.dts == 0 && other.timestamp == 0 && other.data == []
    {
      dts := other.dts;
      timestamp := other.timestamp;
      data := other.data;
      new;
      other.dts := 0;
      other.timestamp := 0;
      other.data := [];
    }

    /** Copy assignment as intended: every field, the payload included. */
    method CopyAssign(other: VideoSample) returns (self: VideoSample)
      modifies this
      ensures self == this
      ensures dts == old(other.dts) && timestamp == old(other.timestamp) && data == old(other.data)
      ensures other != this ==> other.dts == old(other.dts) && other.timestamp == old(other.timestamp)
                                && other.data == old(other.data)
    {
      dts := other.dts;
      timestamp := other.timestamp;
      data := other.data;
      return this;
    }

    /** Copy assignment as written: the two times are copied, the payload is not. */
    method CopyAssignAsWritten(other: VideoSample) returns (self: VideoSample)
      modifies this
      ensures self == this
      ensures dts == old(other.dts) && timestamp == old(other.timestamp) && data == old(data)
    {
      dts := other.dts;
      timestamp := other.timestamp;
      return this;
    }

    /** Move assignment; assigning an object to itself ends with times 0 and no payload. */
    method MoveAssign(other: VideoSample) returns (self: VideoSample)
      modifies this, other
      ensures self == this
      ensures other != this ==> dts == old(other.dts) && timestamp == old(other.timestamp) && data == old(other.data)
      ensures other.dts == 0 && other.timestamp == 0 && other.data == []
    {
      dts := other.dts;
      timestamp := other.timestamp;
      data := other.data;
      other.dts := 0;
      other.timestamp := 0;
      other.data := [];
      return this;
    }
  }

  /**
   * Assigning a sample with a payload to a default-constructed one keeps
   * the empty payload as written, where the corrected assignment copies it.
   */
  method CopyAssignAsWrittenDropsData() returns (asWritten: seq<Byte>, corrected: seq<Byte>, source: seq<Byte>)
    ensures asWritten == [] && asWritten != source && corrected == source
  {
    var from := new VideoSample();
    from.data := [0, 0, 1];
    var target := new VideoSample();
    var _ := target.CopyAssignAsWritten(from);
    asWritten := target.data;
    var other := new VideoSample();
    var _ := other.CopyAssign(from);
    corrected := other.data;
    source := from.data;
  }
}
