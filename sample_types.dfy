// The sample records the FLV parser hands to its callbacks (samples.hpp of
// the core engine): an audio sample is a timestamp and its payload, a video
// sample also carries its decoding time and whether it is a key frame. All
// times are in units of 100 ns.

module SampleTypes {
  import opened Bytes

  datatype AudioSample = AudioSample(timestamp: int, data: seq<Byte>)

  datatype VideoSample = VideoSample(dts: int, timestamp: int, isKeyFrame: bool, data: seq<Byte>)
}
