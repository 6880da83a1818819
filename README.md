# DawnPlayer core, modelled in Dafny

DawnPlayer plays FLV files through the media stack of Windows: it parses the
FLV container, decodes the AMF0 metadata of the `onMetaData` script tag, turns
AAC/MP3 audio tags and AVC/HEVC video tags into samples, and hands those to a
`MediaStreamSource`. This project models that core and proves properties of
the model:

- `Bytes`, `Hex`, `Wrappers`: big-endian reads used by the parser, the
  little-endian layout of the audio configuration, and the hexadecimal encoder
  behind `uint8_to_hex_string`.
- `AmfTypes`, `AmfDecode`, `AmfEncode`: the AMF0 value types (with the mutable
  object, ECMA array and strict array as classes), the decoder of every
  supported marker, and an encoder used only to state the decoder's round trip.
- `FlvTags`, `FlvParser`: the FLV header, tag framing (stream id, previous tag
  size), and the bodies of script, audio (MP3, AAC) and video (AVC, HEVC) tags,
  with the callbacks the parser raises as a sequence of events delivered to a
  handler state.
- `FlvPlayer`: the coroutine-based engine of the core library (`flv_player`):
  callback handling, sample queues, the decision taken by a sample request, the
  opening phases, the keyframe table and seeking.
- `MediaSource`: the WinRT `FlvMediaStreamSource` that describes the streams,
  assembles video payloads and maps errors.
- `ThreadedPlayer`, `Samples`: the older threaded engine (`dawn_player/`) with
  its packed pending-request counter, and its sample classes.
- `SilverlightSource`, `DpmssSource`: the two Silverlight `MediaStreamSource`
  adapters written in C#.
- `DemoPage`: the UWP demo page that opens a local file and guards its
  asynchronous continuations with a ticket.

Asynchronous code is modelled as steps. A step that issues an operation is one
method, and the step that consumes its result is another, taking the result as
a parameter. File reads, the clock, threads and the platform's media objects
are parameters or appear as entries of an action log.

## Model

| member | source | states |
|---|---|---|
| Bytes.ToUint16Be | core/dawn_player/flv_parser.cpp:789-799 | the value read is below 2^16 |
| Bytes.ToUint24Be | core/dawn_player/flv_parser.cpp:775-787 | the value read is below 2^24 |
| Bytes.ToUint32Be | core/dawn_player/flv_parser.cpp:761-773 | the value read is below 2^32 |
| Bytes.Uint16BeValue | core/dawn_player/flv_parser.cpp:789-799 | the 16-bit read is the big-endian value of the two bytes |
| Bytes.Uint24BeValue | core/dawn_player/flv_parser.cpp:775-787 | the 24-bit read is the big-endian value of the three bytes |
| Bytes.Uint32BeValue | core/dawn_player/flv_parser.cpp:761-773 | the 32-bit read is the big-endian value of the four bytes |
| Bytes.BigEndianRoundTrip | core/dawn_player/flv_parser.cpp:761-799 | writing a value big-endian in n bytes and reading it back gives the value |
| Bytes.LittleEndianRoundTrip | core/dawn_player/flv_player.cpp:464-477 | writing a field in host (little-endian) byte order and reading it back gives the field |
| Bytes.BigEndianBound | core/dawn_player/flv_parser.cpp:761-799 | n bytes read big-endian are below 256^n |
| Hex.HexDigit | core/dawn_player/flv_player.cpp:543-564 | a digit is 0-9 or a letter A-F/a-f |
| Hex.DigitRoundTrip | core/dawn_player/flv_player.cpp:543-564 | decoding a written digit gives back its value, in either case |
| Hex.HexString | core/dawn_player/flv_player.cpp:543-564 | two characters per byte |
| Hex.HexStringAt | core/dawn_player/flv_player.cpp:543-564 | characters 2k and 2k+1 are the high and low nibble of byte k |
| Hex.HexStringAppend | core/dawn_player/flv_player.cpp:464-477 | encoding a concatenation is concatenating the encodings, so field-by-field appends equal one encoding |
| Hex.Uint8ToHexString | dawn_player/flv_player.cpp:411-434 | the loop produces exactly the hex encoding of the bytes |
| AmfTypes.NewString | core/dawn_player/amf_types.cpp:67-81 | a string is accepted iff it has at most 0xffff bytes, and then keeps them |
| AmfTypes.IndexOf | core/dawn_player/amf_types.cpp:204-222 | the result is the first entry with the key, or the size when none has it |
| AmfTypes.FirstMatchIsIndexOf | core/dawn_player/amf_types.cpp:204-222 | any index that is the first match (or the end with no match) equals IndexOf |
| AmfTypes.Lookup | core/dawn_player/amf_types.cpp:127-140 | a value is found iff some property has the name, and it is that property's value |
| AmfTypes.AmfObject.constructor | core/dawn_player/amf_types.cpp:102-108 | a new object has no properties |
| AmfTypes.AmfObject.PushBack | core/dawn_player/amf_types.cpp:115-125 | the property is appended at the end, nothing else changes |
| AmfTypes.AmfObject.ToEcmaArray | core/dawn_player/amf_types.cpp:142-149 | a fresh ECMA array with the same entries in the same order |
| AmfTypes.AmfEcmaArray.constructor | core/dawn_player/amf_types.cpp:151-157 | a new array has no entries |
| AmfTypes.AmfEcmaArray.PushBack | core/dawn_player/amf_types.cpp:164-172 | the entry is appended at the end |
| AmfTypes.AmfEcmaArray.Find | core/dawn_player/amf_types.cpp:204-222 | the linear search returns IndexOf: the first entry with the key, else the end |
| AmfTypes.AmfStrictArray.constructor | core/dawn_player/amf_types.cpp:237-243 | a new array has no items |
| AmfTypes.AmfStrictArray.PushBack | core/dawn_player/amf_types.cpp:250-258 | the item is appended at the end |
| AmfDecode.StringWithoutMarker | core/dawn_player/amf_decode.hpp:327-349 | a string is its 16-bit big-endian length followed by that many bytes; it fails only when the buffer is too short |
| AmfDecode.Decode | core/dawn_player/amf_decode.hpp:63-123 | a decoded value's marker is the byte read and the decoder advances within the buffer |
| AmfDecode.DecodeNumber | core/dawn_player/amf_decode.hpp:125-152 | succeeds iff marker 0x00 and 9 bytes remain; the value is the 8 payload bytes |
| AmfDecode.DecodeBoolean | core/dawn_player/amf_decode.hpp:154-171 | succeeds iff marker 0x01 and 2 bytes remain; any non-zero byte is true |
| AmfDecode.DecodeString | core/dawn_player/amf_decode.hpp:173-185 | succeeds iff marker 0x02, the two length bytes and the whole string are in the buffer; the value is the len bytes after the length and exactly 3 + len bytes are consumed |
| AmfDecode.DecodeObject | core/dawn_player/amf_decode.hpp:187-210 | a decoded object has marker 0x03 and ends inside the buffer; every property it stores has a non-empty name and a value other than object-end |
| AmfDecode.ObjectProps | core/dawn_player/amf_decode.hpp:187-210 | the property loop ends inside the buffer with an object that extends the properties read so far; the properties it adds have non-empty names and are not the terminator |
| AmfDecode.DecodeEcmaArray | core/dawn_player/amf_decode.hpp:212-246 | a decoded ECMA array has marker 0x08, a 4-byte count and ends inside the buffer; it stores at most count entries, none of them the object-end value |
| AmfDecode.EcmaEntries | core/dawn_player/amf_decode.hpp:212-246 | the entry loop extends the entries read so far by at most count entries, none of them the object-end value, and ends inside the buffer |
| AmfDecode.DecodeObjectEnd | core/dawn_player/amf_decode.hpp:248-260 | succeeds iff the marker is 0x09, consuming one byte |
| AmfDecode.DecodeStrictArray | core/dawn_player/amf_decode.hpp:262-290 | a decoded strict array has marker 0x0a and ends inside the buffer |
| AmfDecode.StrictItems | core/dawn_player/amf_decode.hpp:262-290 | the item loop yields exactly the announced count of items |
| AmfDecode.DecodeDate | core/dawn_player/amf_decode.hpp:292-320 | succeeds iff marker 0x0b and 11 bytes remain; the time-zone bytes are skipped |
| AmfDecode.BuildObject | core/dawn_player/amf_decode.hpp:187-210 | the loop that pushes properties into a mutable object returns what DecodeObject specifies |
| AmfDecode.BuildEcmaArray | core/dawn_player/amf_decode.hpp:212-246 | the loop that pushes entries returns what DecodeEcmaArray specifies |
| AmfDecode.BuildStrictArray | core/dawn_player/amf_decode.hpp:262-290 | the loop that pushes items returns what DecodeStrictArray specifies |
| AmfEncode.DecodeEncode | core/dawn_player/amf_decode.hpp:63-123 | decoding the encoding of any encodable value gives back the value and consumes exactly the encoding |
| AmfEncode.ScalarEncode | core/dawn_player/amf_decode.hpp:125-185 | the round trip for numbers, booleans, strings, dates and object ends |
| AmfEncode.ObjectEncode | core/dawn_player/amf_decode.hpp:187-210 | the round trip for objects |
| AmfEncode.EcmaArrayEncode | core/dawn_player/amf_decode.hpp:212-246 | the round trip for ECMA arrays |
| AmfEncode.StrictArrayEncode | core/dawn_player/amf_decode.hpp:262-290 | the round trip for strict arrays |
| AmfEncode.ObjectTerminator | core/dawn_player/amf_decode.hpp:187-210 | the empty name followed by 0x09 ends a property list |
| FlvParser.ParseHeader | core/dawn_player/flv_parser.cpp:23-58 | never aborts; Ok iff the signature "FLV", version 1, an audio or a video flag and data offset 9 are present, consuming 9 bytes, else nothing |
| FlvParser.HeaderAccepted | core/dawn_player/flv_parser.cpp:23-58 | every well-formed header is accepted, whatever follows it |
| FlvParser.SwapHalvesBytes | core/dawn_player/flv_parser.cpp:119-133 | the previous-tag-size check compares the bytes in the order the source's swap puts them |
| FlvParser.SwapHalvesInvolution | core/dawn_player/flv_parser.cpp:119-133 | the swap applied twice is the identity |
| FlvParser.Frame | core/dawn_player/flv_parser.cpp:65-124 | a whole tag's body starts 11 bytes after the tag and lies inside the buffer |
| FlvParser.ReadTagHeader | core/dawn_player/flv_parser.cpp:65-124 | reading the tag header frames the tag as Frame does |
| FlvParser.DeliverEvents | core/dawn_player/flv_parser.cpp:135-738 | delivering callbacks one by one stops at the first refusal, as Deliver states |
| FlvParser.ParseTagsFrom | core/dawn_player/flv_parser.cpp:60-743 | the NALU length size stays one of 0 to 4 |
| FlvParser.ConsumedInside | core/dawn_player/flv_parser.cpp:60-743 | the bytes consumed never pass the buffer |
| FlvParser.ConsumedWholeTags | core/dawn_player/flv_parser.cpp:739-742 | the bytes consumed are a run of whole tags, each with its previous-tag size |
| FlvParser.ShortInputIsOk | core/dawn_player/flv_parser.cpp:65-70 | with no more than 11 bytes after the offset the parser stops with Ok, consumes nothing more and calls nothing |
| FlvParser.NonZeroStreamIdIsError | core/dawn_player/flv_parser.cpp:107-113 | a non-zero stream id is an Error before the tag is consumed |
| FlvParser.BadPreviousTagSizeIsError | core/dawn_player/flv_parser.cpp:119-133 | a previous-tag size that disagrees with the tag is an Error |
| FlvParser.UnknownTagSkipped | core/dawn_player/flv_parser.cpp:735-738 | a tag of an unknown type is skipped and parsing goes on after it |
| FlvParser.RejectionAborts | core/dawn_player/flv_parser.cpp:135-153 | a callback that refuses makes the parse Abort without consuming the tag |
| FlvParser.NoCallbacksNoEvents | core/dawn_player/flv_parser.cpp:60-743 | with no callback registered the handler state is untouched and the parse never aborts |
| FlvParser.TagBodySilent | core/dawn_player/flv_parser.cpp:135-738 | a tag body raises no event when no callback is registered |
| FlvParser.Parser.constructor | core/dawn_player/flv_parser.cpp:750-759 | a new parser has length size 0 and no callbacks |
| FlvParser.Parser.ParseFlvHeader | core/dawn_player/flv_parser.cpp:23-58 | the method returns what ParseHeader specifies |
| FlvParser.Parser.ParseTags | core/dawn_player/flv_parser.cpp:60-743 | the loop's result, consumed count, new length size and handler state are those of ParseTagsFrom |
| FlvParser.Parser.Reset | core/dawn_player/flv_parser.cpp:750-759 | all callbacks are cleared and the length size is 0 |
| FlvParser.Parser.ResetAsWritten | core/dawn_player/flv_parser.cpp:750-759 | the length size is 0 and every callback but the HEVC one is cleared |
| FlvParser.ResetAsWrittenKeepsHevcCallback | core/dawn_player/flv_parser.cpp:750-759 | a registered HEVC callback survives the reset as written |
| FlvTags.LengthSizeFromFlag | core/dawn_player/flv_parser.cpp:471-484 | the length size is flag+1, and a flag of 2 (size 3) is refused |
| FlvTags.SampleTimeBytes | core/dawn_player/flv_parser.cpp:107-113 | the timestamp is the extended byte on top of the 24-bit field, in 100 ns units |
| FlvTags.SampleTime | core/dawn_player/flv_parser.cpp:528 | the time is a whole number of 100 ns units; read back in milliseconds, its low 24 bits are the Timestamp field and the bits above are TimestampExtended |
| FlvTags.SignedCompositionTime | core/dawn_player/flv_parser.cpp:528-529 | the 24-bit composition time read as signed lies in [-2^23, 2^23) and agrees modulo 2^24 |
| FlvTags.PresentationTimeSigned | core/dawn_player/flv_parser.cpp:528-529 | the corrected pts is dts plus the signed composition time in 100 ns units |
| FlvTags.PresentationTimeAsWrittenNegative | core/dawn_player/flv_parser.cpp:528-529 | as written, a composition time of -1 ms puts pts 268425456 later instead of 10000 earlier |
| FlvTags.PresentationTimeAsWritten | core/dawn_player/flv_parser.cpp:529 | as written the offset added to dts is never negative and stays below 2^32; below that bound it is the composition time times 10000 |
| FlvTags.PresentationTimeAsWrittenAgrees | core/dawn_player/flv_parser.cpp:528-529 | the pts as written equals the signed one exactly when the composition time is below 429497 ms |
| FlvTags.BlockAlign | core/dawn_player/flv_parser.cpp:244-258 | block align is channels times bits per sample in bytes |
| FlvTags.MakeAudioConfig | core/dawn_player/flv_parser.cpp:244-258 | the format fields are kept and average bytes per second is the rate times the block align |
| FlvTags.MakeAudioConfigAsWritten | core/dawn_player/flv_parser.cpp:244-258 | the block align and the other format fields are as WAVEFORMATEX defines them; the byte rate as written is given by AverageBytesAsWritten |
| FlvTags.AverageBytesAsWritten | core/dawn_player/flv_parser.cpp:244-258 | as written, average bytes per second is 8 times the rate whatever the channels and bits |
| FlvTags.AverageBytesAsWrittenExample | core/dawn_player/flv_parser.cpp:244-258 | for 44.1 kHz 16-bit stereo the source gives 352800 where 176400 is meant |
| FlvTags.SoundSize | core/dawn_player/flv_parser.cpp:154-186 | the sample size is 8 or 16 bits |
| FlvTags.Mp3Config | core/dawn_player/flv_parser.cpp:187-272 | accepted iff the version is not reserved and the rate index is not 3; format 0x55, the standard rate, mono iff channel mode 3, and average bytes per second 8 times the rate, as written |
| FlvTags.AacSamplingFrequency | core/dawn_player/flv_parser.cpp:301-344 | a frequency exists iff the index is below 13 |
| FlvTags.AacSamplingFrequencyDecreasing | core/dawn_player/flv_parser.cpp:301-344 | the frequency table strictly decreases |
| FlvTags.AacSamplingFrequencyAsWritten | core/dawn_player/flv_parser.cpp:301-344 | as written, only indices below 13 give a frequency; AacSamplingFrequencyAsWrittenAgrees and AacSamplingFrequencyAsWrittenDiffers relate it to the standard table |
| FlvTags.AacSamplingFrequencyAsWrittenDiffers | core/dawn_player/flv_parser.cpp:301-344 | as written, index 0xa gives 8000 instead of 11025 and 0xb gives none instead of 8000 |
| FlvTags.AacSamplingFrequencyAsWrittenAgrees | core/dawn_player/flv_parser.cpp:301-344 | every index other than 0xa and 0xb gives the frequency of the standard table |
| FlvTags.AacConfig | core/dawn_player/flv_parser.cpp:273-384 | accepted iff the switch as written gives a frequency (so index 0xb is refused) and the channel configuration is 1 to 7; the rate is the one the switch gives, format 0xff, the channel count is the configuration except that 7 means 8 channels, and average bytes per second is 8 times the rate, as written |
| FlvTags.ScriptTag | core/dawn_player/flv_parser.cpp:135-153 | fails iff the name and value do not decode from the tag body; on success raises one event iff the callback is set, and that event carries the decoded name and the value decoded right after it |
| FlvTags.ScriptTagRoundTrip | core/dawn_player/flv_parser.cpp:135-153 | a tag body holding an encoded name followed by an encoded value raises exactly that name and value, and does not fail |
| FlvTags.AudioTag | core/dawn_player/flv_parser.cpp:154-389 | a format other than MP3 (2) or AAC (10) fails. MP3 fails iff the size after the flags byte, taken as 32-bit unsigned, is below the 4-byte header, or the configuration callback is set and the header is refused, or the sample callback is set on an empty tag; otherwise it raises the MP3 configuration (iff its callback is set) and then the sample of the bytes after the flags byte (iff its callback is set). AAC packet 0 fails iff the AudioSpecificConfig is refused, and otherwise raises that configuration iff the callback is set; packet 1 raises the sample of the bytes after the packet-type byte and fails only on an empty tag or an empty sample; a packet type above 1 fails |
| FlvTags.ReadLengthValue | core/dawn_player/flv_parser.cpp:520-560 | the NALU length field is the big-endian value of its bytes |
| FlvTags.AnnexBLength | core/dawn_player/flv_parser.cpp:520-560 | the Annex B stream is the NALUs plus a 3-byte start code each |
| FlvTags.NalUnits | core/dawn_player/flv_parser.cpp:531-555 | a successful rewrite of a non-empty range starts with the start code 00 00 01, is at most twice the input, and is shorter than the input for 4-byte lengths |
| FlvTags.NalUnitsRoundTrip | core/dawn_player/flv_parser.cpp:520-560 | length-prefixed NALUs convert to their Annex B stream |
| FlvTags.ReadNalUnits | core/dawn_player/flv_parser.cpp:520-560 | the conversion loop returns what NalUnits specifies |
| FlvTags.ReadNalUnit | core/dawn_player/flv_parser.cpp:520-560 | one turn of the loop: a partial length field or a length of 0 or past the tag gives up, otherwise the unit behind a start code and the position after it |
| FlvTags.ReadLengthField | core/dawn_player/flv_parser.cpp:520-560 | the byte loop reads what ReadLength specifies |
| FlvTags.ParameterSets | core/dawn_player/flv_parser.cpp:488-513 | the parameter-set reader never moves backwards |
| FlvTags.ParameterSetsRoundTrip | core/dawn_player/flv_parser.cpp:488-513 | a written list of 16-bit-length parameter sets reads back as those sets |
| FlvTags.ReadParameterSets | core/dawn_player/flv_parser.cpp:488-513 | the loop returns what ParameterSets specifies |
| FlvTags.HevcNalus | core/dawn_player/flv_parser.cpp:645-674 | the NALU loop of one HEVC array stays inside the record; type 32 only appends to the VPS, 33 to the SPS, 34 to the PPS, and any other type leaves all three unchanged |
| FlvTags.HevcNalusContents | core/dawn_player/flv_parser.cpp:645-674 | what one array adds is exactly its units as the parameter-set reader reads them, appended to the set its type names |
| FlvTags.HevcNalusWithin | core/dawn_player/flv_parser.cpp:645-674 | units that read back inside the record are all appended to the set of the array type, and the loop ends where the units end |
| FlvTags.HevcArraysExtends | core/dawn_player/flv_parser.cpp:633-675 | the array loop only appends to the VPS, SPS and PPS it starts from: each ends up with the old bytes as a prefix |
| FlvTags.CollectedUnits | core/dawn_player/flv_parser.cpp:633-675 | adding the arrays one by one gives each of VPS, SPS and PPS the units of exactly the arrays of type 32, 33 or 34, in array order; arrays of any other type are skipped |
| FlvTags.HevcArraysRoundTrip | core/dawn_player/flv_parser.cpp:633-675 | reading arrays that each read back gives what adding them one by one gives |
| FlvTags.HevcArrayListRead | core/dawn_player/flv_parser.cpp:633-675 | a stored list of arrays (type byte, 16-bit unit count, 16-bit-length units) reads back array by array |
| FlvTags.ReadHevcNalus | core/dawn_player/flv_parser.cpp:633-675 | the loop returns what HevcNalus specifies |
| FlvTags.ReadHevcArrays | core/dawn_player/flv_parser.cpp:633-675 | the loop over arrays returns what HevcArrays specifies |
| FlvTags.AvcConfigRecord | core/dawn_player/flv_parser.cpp:449-519 | fails with the length size unchanged when the record is short, the version is not 1 or the length flag is 2; otherwise the new length size is the one the flag gives; at most one event, exactly one on success iff the callback is set, none on failure |
| FlvTags.AvcConfigRecordRoundTrip | core/dawn_player/flv_parser.cpp:449-519 | a record of version 1 with a valid length flag and written SPS and PPS lists raises the concatenated SPS units and the concatenated PPS units, and sets the length size from the flag |
| FlvTags.ParameterSetsReadBack | core/dawn_player/flv_parser.cpp:488-513 | a written list of parameter sets reads back as their concatenation, ending right after the list |
| FlvTags.HevcConfigRecord | core/dawn_player/flv_parser.cpp:577-681 | fails with the length size unchanged when the record is shorter than 23 bytes, the version is not 1 or the length flag is 2; otherwise the new length size is the one the flag gives; at most one event, exactly one on success iff the callback is set, none on failure |
| FlvTags.HevcConfigRecordRoundTrip | core/dawn_player/flv_parser.cpp:577-681 | a record of version 1 with a valid length flag and written arrays raises the VPS, SPS and PPS made of the units of the arrays of type 32, 33 and 34, skips the other arrays, and sets the length size from the flag |
| FlvTags.NaluSample | core/dawn_player/flv_parser.cpp:520-560 | without the callback nothing is raised and nothing fails; with it, a sample before any configuration (length size 0) fails, and otherwise it fails iff the NALU rewrite fails and raises exactly one event: the sample with the tag time as dts, dts plus the composition time taken unsigned and wrapped at 2^32 as pts (as written), and the Annex B units as data; the length size is kept |
| FlvTags.VideoTag | core/dawn_player/flv_parser.cpp:390-738 | a codec other than AVC (7) or HEVC (12) fails, and so does an HEVC tag shorter than 5 bytes; otherwise packet type 0 decodes the AVC or HEVC configuration record after the 5-byte header, 1 decodes a sample with the 24-bit composition time and the key-frame flag of frame type 1, 2 (end of sequence) raises nothing, and a higher type fails |
| FlvTags.TagBody | core/dawn_player/flv_parser.cpp:735-738 | a tag type other than 8, 9 or 18 raises nothing and keeps the length size |
| FlvTags.DecodeAvcConfigRecord | core/dawn_player/flv_parser.cpp:449-519 | the method returns what AvcConfigRecord specifies |
| FlvTags.DecodeHevcConfigRecord | core/dawn_player/flv_parser.cpp:577-681 | the method returns what HevcConfigRecord specifies |
| FlvTags.DecodeNaluSample | core/dawn_player/flv_parser.cpp:520-560 | the method returns what NaluSample specifies, pts as written included |
| FlvTags.DecodeVideoTag | core/dawn_player/flv_parser.cpp:390-738 | the method returns what VideoTag specifies |
| FlvTags.DecodeTagBody | core/dawn_player/flv_parser.cpp:135-738 | the method returns what TagBody specifies |
| FlvPlayer.AsciiBytes | core/dawn_player/flv_player.cpp:425-444 | one byte per character of a key |
| FlvPlayer.OnScriptTag | core/dawn_player/flv_player.cpp:425-444 | refuses iff onMetaData is neither an ECMA array nor an object; an object is kept as an ECMA array; later tags are ignored |
| FlvPlayer.AudioConfigBytes | core/dawn_player/flv_player.cpp:464-477 | the packed audio configuration is 18 bytes |
| FlvPlayer.AudioConfigHex | core/dawn_player/flv_player.cpp:464-477 | its hex encoding is 36 characters |
| FlvPlayer.Dispatch | core/dawn_player/flv_player.cpp:425-503 | samples are queued iff their configuration was read; configurations set codec, parameter sets and private data; the session only grows |
| FlvPlayer.DeliverGrows | core/dawn_player/flv_player.cpp:425-503 | any run of callbacks only grows the session |
| FlvPlayer.ParseGrows | core/dawn_player/flv_player.cpp:382-424 | parsing with the player's callbacks only grows the session |
| FlvPlayer.GrowsTransitive | core/dawn_player/flv_player.cpp:425-503 | growth composes |
| FlvPlayer.SampleCallbacksYieldSamples | core/dawn_player/flv_player.cpp:504-533 | with only the sample callbacks registered, every event is a sample |
| FlvPlayer.DeliverSamplesKeepsConfiguration | core/dawn_player/flv_player.cpp:478-503 | sample callbacks leave the configuration and metadata unchanged |
| FlvPlayer.SampleParseKeepsConfiguration | core/dawn_player/flv_player.cpp:382-424 | parsing while playing leaves the configuration and metadata unchanged |
| FlvPlayer.Decide | core/dawn_player/flv_player.cpp:43-72 | a request is cancelled iff closed, served iff a sample is queued, otherwise end of stream, error, wait or read, each with both directions |
| FlvPlayer.Insert | core/dawn_player/flv_player.hpp:50 | the keyframe table stays in descending time order and an existing time keeps its first position |
| FlvPlayer.SeekTargetUnique | core/dawn_player/flv_player.cpp:120-131 | the keyframe a seek lands on is unique |
| FlvPlayer.LowerBound | core/dawn_player/flv_player.cpp:120-131 | the search finds the latest keyframe not after the time, or the earliest one |
| FlvPlayer.HeaderPhase | core/dawn_player/flv_player.cpp:191-213 | the header phase uses no more reads than it was given |
| FlvPlayer.HeaderPhaseDone | core/dawn_player/flv_player.cpp:191-213 | the buffer after the header phase is what was read, minus the 13 header bytes when it succeeds |
| FlvPlayer.ReceivedAppend | core/dawn_player/flv_player.cpp:177-189 | bytes received over two runs of reads are concatenated |
| FlvPlayer.MetaPhase | core/dawn_player/flv_player.cpp:215-242 | the metadata phase ends done only with metadata and both configurations; the session only grows |
| FlvPlayer.MetaPhaseChunk | core/dawn_player/flv_player.cpp:215-242 | one read of the metadata phase parses the buffered bytes and keeps what was not consumed |
| FlvPlayer.NumberProperty | core/dawn_player/flv_player.cpp:281-344 | a number is found iff the key's first entry holds a number |
| FlvPlayer.KeyframeIndexOf | core/dawn_player/flv_player.cpp:342-359 | an index has as many times as positions, all numbers; no index iff the "keyframes" key is absent or its value is not an object |
| FlvPlayer.KeyframeIndexAsWritten | core/dawn_player/flv_player.cpp:342-359 | as written a non-number element of the arrays is a null dereference; every other input gives what KeyframeIndexOf gives |
| FlvPlayer.KeyframeIndexNullElement | core/dawn_player/flv_player.cpp:342-359 | a keyframes object with a boolean time is a null dereference as written and a parse error corrected |
| FlvPlayer.InsertKeyframes | core/dawn_player/flv_player.cpp:342-359 | the table stays descending |
| FlvPlayer.InsertKeyframesEntries | core/dawn_player/flv_player.cpp:342-359 | every listed time is in the table and every entry is old or listed |
| FlvPlayer.InfoOf | core/dawn_player/flv_player.cpp:366-376 | info exists iff width and height are numbers; it carries the duration, seekability and audio private data |
| FlvPlayer.AdjustMonotone | core/dawn_player/flv_player.cpp:565-575 | the timestamp adjustment keeps the order of timestamps |
| FlvPlayer.SeekWithoutKeyframesAsWritten | core/dawn_player/flv_player.cpp:120-126 | metadata without a keyframes index leaves the table empty and the player unseekable, and a seek then reaches rbegin() of the empty map |
| FlvPlayer.SeekWithoutKeyframes | core/dawn_player/flv_player.cpp:120-126 | with the correction that seek is refused |
| FlvPlayer.Player.AdjustSampleTimestamp | core/dawn_player/flv_player.cpp:565-575 | unchanged when seekable, otherwise shifted by the first timestamp and never negative |
| FlvPlayer.Player.constructor | core/dawn_player/flv_player.cpp:33-41 | a new player is open, empty and not seekable |
| FlvPlayer.Player.RegisterCallbacks | core/dawn_player/flv_player.cpp:504-533 | exactly the callbacks for the phase are registered |
| FlvPlayer.Player.UnregisterCallbacks | core/dawn_player/flv_player.cpp:534-542 | all callbacks but the HEVC one are cleared |
| FlvPlayer.Player.Request | core/dawn_player/flv_player.cpp:43-72 | the decision follows Decide; a waiting request is queued; a read is started only on ReadMore |
| FlvPlayer.Player.GetAudioSample | core/dawn_player/flv_player.cpp:43-72 | a queued audio sample is popped from the front; otherwise nothing is taken |
| FlvPlayer.Player.GetVideoSample | core/dawn_player/flv_player.cpp:74-103 | a queued video sample is popped from the front; otherwise nothing is taken |
| FlvPlayer.Player.ParseBuffered | core/dawn_player/flv_player.cpp:382-424 | the buffered bytes are parsed with the sample callbacks and the unconsumed rest is kept |
| FlvPlayer.Player.CompleteRead | core/dawn_player/flv_player.cpp:382-424 | a finished read releases every waiter; a failed read sets the error flag, an empty one end of stream; bytes are parsed with the sample callbacks, keeping the unconsumed rest, and a parse that is not Ok sets the error flag |
| FlvPlayer.Player.SeekAsWritten | core/dawn_player/flv_player.cpp:105-144 | as Seek, except that an empty keyframe table reaches rbegin() of an empty map, modelled as SeekUndefined with nothing changed |
| FlvPlayer.Player.Seek | core/dawn_player/flv_player.cpp:105-144 | the corrected seek: cancelled when closed; waits while a read is in progress; refuses without changing anything when the keyframe table is empty; otherwise moves to the keyframe lower_bound finds, empties the buffer and queues, clears end of stream and sets the error flag iff the stream seek fails |
| FlvPlayer.Player.MoveToKeyframe | core/dawn_player/flv_player.cpp:120-144 | the seek lands on the keyframe lower_bound finds, empties the buffer and queues, clears end of stream and sets the error flag iff the stream seek fails |
| FlvPlayer.Player.Close | core/dawn_player/flv_player.cpp:146-150 | marks the player closed and nothing else |
| FlvPlayer.Player.ParseHeaderPhase | core/dawn_player/flv_player.cpp:191-213 | the method follows HeaderPhase |
| FlvPlayer.Player.ParseMetaDataPhase | core/dawn_player/flv_player.cpp:215-242 | the method follows MetaPhase |
| FlvPlayer.Player.FillKeyframes | core/dawn_player/flv_player.cpp:342-359 | the table becomes InsertKeyframes of the old table |
| FlvPlayer.Player.GetVideoInfo | core/dawn_player/flv_player.cpp:244-380 | the info follows InfoOf, seekable iff the stream can seek and a keyframe index was read |
| FlvPlayer.Player.Open | core/dawn_player/flv_player.cpp:33-41 | header failure or shortage gives OpenFailed or OpenPending; after the header, a metadata-phase failure or shortage does the same with the answers both phases used; a bad keyframe index fails; otherwise the keyframes are those of the index, seekable iff the stream can seek and the table is non-empty, and the outcome is Opened with InfoOf of the metadata or a parse error when it has none |
| MediaSource.AudioPropertiesOf | FlvMediaStreamSource.cpp:89-94 | the channel count and sample rate decoded fit their 16 and 32 bits |
| MediaSource.FieldBound | FlvMediaStreamSource.cpp:89-94 | an n-byte field decoded from hex is below 256^n |
| MediaSource.FieldOfHex | FlvMediaStreamSource.cpp:89-94 | a field of the hex string decodes to the little-endian value of its bytes |
| MediaSource.AudioPropertiesRoundTrip | FlvMediaStreamSource.cpp:89-94 | decoding the private data the player wrote gives back its format, channels, rate and bits |
| MediaSource.EvenDown | FlvMediaStreamSource.cpp:104-108 | the largest even number not above the input |
| MediaSource.VideoSubtypeOf | FlvMediaStreamSource.cpp:227-236 | HEVC iff the codec is HEVC, else H264 |
| MediaSource.Describe | FlvMediaStreamSource.cpp:76-121 | a description exists iff the info and audio data decode; even width and height, seekability and duration carried over |
| MediaSource.AnnexBConcat | FlvMediaStreamSource.cpp:172-213 | the Annex B stream of two lists is the concatenation of theirs |
| MediaSource.AnnexBOne | FlvMediaStreamSource.cpp:172-213 | one unit is a start code then the unit |
| MediaSource.KeyframePayloadIsAnnexB | FlvMediaStreamSource.cpp:172-213 | a keyframe payload is the Annex B stream of the present parameter sets followed by the sample's units |
| MediaSource.WriteBytes | FlvMediaStreamSource.cpp:172-213 | writing appends the bytes |
| MediaSource.WriteVideoPayload | FlvMediaStreamSource.cpp:172-213 | the written payload is VideoPayload |
| MediaSource.ErrorResponse | FlvMediaStreamSource.cpp:163-170 | end of stream answers no sample, cancel answers nothing, anything else notifies an error |
| MediaSource.StreamSource.constructor | FlvMediaStreamSource.cpp:23-33 | the source holds the player and both event tokens |
| MediaSource.StreamSource.Close | FlvMediaStreamSource.cpp:57-74 | the tokens are removed once, the player is closed and released; a second close does nothing |
| MediaSource.CloseTwice | FlvMediaStreamSource.cpp:52-74 | closing twice (destructor after Close) removes each token once and closes the player |
| MediaSource.StreamSource.HandleStarting | FlvMediaStreamSource.cpp:133-146 | a start position is honoured iff the player is open and the seek succeeds |
| MediaSource.StreamSource.HandleSampleRequested | FlvMediaStreamSource.cpp:148-225 | no answer after close; errors map through ErrorResponse; samples are answered with their payload and time |
| ThreadedPlayer.PackedFields | dawn_player/flv_player.cpp:40-48 | the counter packs audio requests in the low and video in the high 16 bits |
| ThreadedPlayer.RequestCounts | dawn_player/flv_player.cpp:40-48 | a request adds one to its own half of the counter |
| ThreadedPlayer.ServeCounts | dawn_player/flv_player.cpp:275-276 | serving takes one from its own half and does not wrap |
| ThreadedPlayer.Ready | dawn_player/flv_player.cpp:219-231 | the worker waits while both queues are empty; with a request pending it wakes iff a requested kind has a queued sample |
| ThreadedPlayer.Choose | dawn_player/flv_player.cpp:219-253 | audio only when queued and requested; video when only video can be served |
| ThreadedPlayer.OnScriptTag | dawn_player/flv_player.cpp:279-291 | refuses iff onMetaData is not an ECMA array; otherwise keeps it |
| ThreadedPlayer.AvcPrivateData | dawn_player/flv_player.cpp:292-303 | the private data is the upper-case hex of the Annex B stream of the SPS and PPS |
| ThreadedPlayer.Dispatch | dawn_player/flv_player.cpp:279-343 | samples queued iff configured, configurations recorded, the session only grows |
| ThreadedPlayer.DeliverGrows | dawn_player/flv_player.cpp:279-343 | a run of callbacks only grows the session |
| ThreadedPlayer.ParseGrows | dawn_player/flv_player.cpp:50-73 | parsing with these callbacks only grows the session |
| ThreadedPlayer.GrowsTransitive | dawn_player/flv_player.cpp:279-343 | growth composes |
| ThreadedPlayer.MediaInfoOf | dawn_player/flv_player.cpp:178-203 | info exists iff metadata, both configurations, duration, width and height are present; never seekable, H264 |
| ThreadedPlayer.Engine.constructor | dawn_player/flv_player.cpp:50-73 | a new engine is empty with no pending requests |
| ThreadedPlayer.Engine.RegisterCallbacks | dawn_player/flv_player.cpp:344-362 | the opening callbacks are registered |
| ThreadedPlayer.Engine.UnregisterCallbacks | dawn_player/flv_player.cpp:363-371 | all callbacks but the HEVC one are cleared |
| ThreadedPlayer.Engine.Open | dawn_player/flv_player.cpp:50-204 | fewer than 13 bytes or a bad header fail without change; otherwise the tags are parsed and the info follows MediaInfoOf |
| ThreadedPlayer.Engine.ParseOpeningTags | dawn_player/flv_player.cpp:64-73 | the tags after the header are parsed as ParseTagsFrom does, then callbacks are cleared |
| ThreadedPlayer.Engine.GetSampleAsync | dawn_player/flv_player.cpp:40-48 | the counter grows by the request's unit modulo 2^32; a worker starts iff it was zero |
| ThreadedPlayer.Engine.ServeOne | dawn_player/flv_player.cpp:205-278 | serves what Choose picks, takes one from that half, and goes on iff requests remain |
| Samples.AudioSample.constructor | dawn_player/samples.cpp:14-17 | a new sample is empty at time 0 |
| Samples.AudioSample.Copy | dawn_player/samples.cpp:19-22 | the copy has the same time and data |
| Samples.AudioSample.Move | dawn_player/samples.cpp:24-28 | the data moves over and the source is left empty |
| Samples.AudioSample.CopyAssign | dawn_player/samples.cpp:30-35 | time and data are copied and the source is kept |
| Samples.AudioSample.MoveAssign | dawn_player/samples.cpp:37-43 | the data moves over and the source is left empty |
| Samples.VideoSample.constructor | dawn_player/samples.cpp:45-48 | a new sample is empty at time 0 |
| Samples.VideoSample.Copy | dawn_player/samples.cpp:50-53 | the copy has the same times and data |
| Samples.VideoSample.Move | dawn_player/samples.cpp:55-60 | the data moves over and the source is left empty |
| Samples.VideoSample.CopyAssign | dawn_player/samples.cpp:62-67 | times and data are copied and the source is kept |
| Samples.VideoSample.CopyAssignAsWritten | dawn_player/samples.cpp:62-67 | as written, the times are copied and the data is left as it was |
| Samples.CopyAssignAsWrittenDropsData | dawn_player/samples.cpp:62-67 | copy-assigning a sample with data into an empty one leaves it empty as written |
| Samples.VideoSample.MoveAssign | dawn_player/samples.cpp:69-77 | the data moves over and the source is left empty |
| SilverlightSource.Streams | WindowsPhoneSilverlight/dpmss/FlvMediaStreamSource.cs:118-150 | one audio and one video description carrying the private data |
| SilverlightSource.DivTruncate | WindowsPhoneSilverlight/dpmss/FlvMediaStreamSource.cs:30-40 | C# division truncating toward zero |
| SilverlightSource.FlvSource.constructor | WindowsPhoneSilverlight/dpmss/FlvMediaStreamSource.cs:42-46 | the source holds the stream and no player; all flags clear |
| SilverlightSource.FlvSource.Wrap | WindowsPhoneSilverlight/dpmss/FlvMediaStreamSource.cs:47-55 | no source iff no stream is given |
| SilverlightSource.FlvSource.Position | WindowsPhoneSilverlight/dpmss/FlvMediaStreamSource.cs:30-40 | 0 when closed or errored, the player position over 10000 otherwise |
| SilverlightSource.FlvSource.CloseMedia | WindowsPhoneSilverlight/dpmss/FlvMediaStreamSource.cs:56-60 | closes the player, or throws when there is none |
| SilverlightSource.FlvSource.OpenMedia | WindowsPhoneSilverlight/dpmss/FlvMediaStreamSource.cs:112-151 | the player is created |
| SilverlightSource.FlvSource.CompleteOpen | WindowsPhoneSilverlight/dpmss/FlvMediaStreamSource.cs:118-150 | nothing after close; success reports the streams, failure reports an error and sets the error flag, any other result is ignored |
| SilverlightSource.FlvSource.RequestSample | WindowsPhoneSilverlight/dpmss/FlvMediaStreamSource.cs:67-79 | script samples are not requested; without a player the request throws |
| SilverlightSource.FlvSource.CompleteSample | WindowsPhoneSilverlight/dpmss/FlvMediaStreamSource.cs:76-109 | nothing after close or error; a sample, end of stream or error is reported, any other result is ignored |
| SilverlightSource.FlvSource.Seek | WindowsPhoneSilverlight/dpmss/FlvMediaStreamSource.cs:153-168 | ignored while seeking; otherwise marks seeking and awaits the player |
| SilverlightSource.FlvSource.CompleteSeekAsWritten | WindowsPhoneSilverlight/dpmss/FlvMediaStreamSource.cs:155-167 | an early return leaves isSeeking set; after Dispose removed the player the seek is reported, then end_seek throws and isSeeking stays set |
| SilverlightSource.SeekAfterFailedSeekAsWritten | WindowsPhoneSilverlight/dpmss/FlvMediaStreamSource.cs:155-167 | after a seek that returned -1 every later seek is ignored |
| SilverlightSource.FlvSource.CompleteSeek | WindowsPhoneSilverlight/dpmss/FlvMediaStreamSource.cs:155-167 | isSeeking is cleared on every path and nothing throws; without a player nothing is reported |
| SilverlightSource.SeekAfterFailedSeek | WindowsPhoneSilverlight/dpmss/FlvMediaStreamSource.cs:155-167 | with the correction a seek after a failed one proceeds |
| SilverlightSource.SeekAfterDisposeAsWritten | WindowsPhoneSilverlight/dpmss/FlvMediaStreamSource.cs:155-186 | a seek completing after Dispose reports itself, throws, and the next seek is ignored |
| SilverlightSource.SeekAfterDispose | WindowsPhoneSilverlight/dpmss/FlvMediaStreamSource.cs:155-186 | with the correction it reports nothing and does not throw, and the next seek is not ignored: it goes on to the missing player and throws there |
| SilverlightSource.FlvSource.DisposeAsWritten | WindowsPhoneSilverlight/dpmss/FlvMediaStreamSource.cs:175-188 | disposes player and stream but never sets disposed; a missing stream throws after the player is disposed and leaves the player set |
| SilverlightSource.DisposeTwiceAsWritten | WindowsPhoneSilverlight/dpmss/FlvMediaStreamSource.cs:175-188 | a second Dispose throws on the released player |
| SilverlightSource.FlvSource.Dispose | WindowsPhoneSilverlight/dpmss/FlvMediaStreamSource.cs:175-188 | disposes once and sets disposed; a missing stream throws after the player is disposed and leaves the player set |
| SilverlightSource.DisposeTwice | WindowsPhoneSilverlight/dpmss/FlvMediaStreamSource.cs:175-188 | with the correction a second Dispose is harmless |
| SilverlightSource.DisposeReopenedAsWritten | WindowsPhoneSilverlight/dpmss/FlvMediaStreamSource.cs:175-188 | a source opened again after Dispose throws on its missing stream, keeps its player and disposes that player again on the next Dispose |
| DpmssSource.SampleTypeOf | dpmss/FlvMediaStreamSource.cs:56-65 | audio and video map to the player's sample types, script to none |
| DpmssSource.SampleReport | dpmss/FlvMediaStreamSource.cs:119-146 | no sample information reports end of stream; otherwise the sample's data and time |
| DpmssSource.FlvSource.constructor | dpmss/FlvMediaStreamSource.cs:27-31 | no player, no handlers, nothing reported |
| DpmssSource.FlvSource.Wrap | dpmss/FlvMediaStreamSource.cs:32-39 | no source iff no stream is given |
| DpmssSource.FlvSource.OpenMedia | dpmss/FlvMediaStreamSource.cs:66-72 | a fresh player with every handler attached |
| DpmssSource.FlvSource.CompleteOpen | dpmss/FlvMediaStreamSource.cs:75-106 | nothing after close; ok reports the media info, error reports the error, and an abort reports nothing |
| DpmssSource.FlvSource.GetSample | dpmss/FlvMediaStreamSource.cs:56-65 | script requests do nothing; without a player it throws; otherwise the request is counted |
| DpmssSource.FlvSource.Seek | dpmss/FlvMediaStreamSource.cs:109-112 | forwards the seek, or throws without a player |
| DpmssSource.FlvSource.CloseMedia | dpmss/FlvMediaStreamSource.cs:41-49 | detaches every handler, closes and drops the player |
| DpmssSource.FlvSource.SampleEvent | dpmss/FlvMediaStreamSource.cs:119-146 | reported iff the handler is attached |
| DpmssSource.FlvSource.SeekEvent | dpmss/FlvMediaStreamSource.cs:148-151 | reported iff the handler is attached |
| DpmssSource.FlvSource.ErrorEvent | dpmss/FlvMediaStreamSource.cs:153-156 | reported iff the handler is attached |
| DpmssSource.NothingReportedAfterClose | dpmss/FlvMediaStreamSource.cs:41-49 | events arriving after close report nothing |
| DpmssSource.FirstRequestStartsWorker | dpmss/FlvMediaStreamSource.cs:56-65 | only the first of two requests starts the worker; both are counted |
| DemoPage.Teardown | Demo/UWP/DawnPlayerDemo/MainPage.xaml.cs:59-69 | nothing to do iff idle; otherwise the source is disposed before the stream, once each |
| DemoPage.AfterFileOpened | Demo/UWP/DawnPlayerDemo/MainPage.xaml.cs:79-92 | goes on iff the ticket is current and a stream was opened; a stale stream is disposed once; the message shows iff current |
| DemoPage.AfterSourceCreated | Demo/UWP/DawnPlayerDemo/MainPage.xaml.cs:93-124 | installs iff current and created; otherwise the stream and any created source are disposed exactly once |
| DemoPage.MainPage.constructor | Demo/UWP/DawnPlayerDemo/MainPage.xaml.cs:17-22 | nothing plays and the counter is 0 |
| DemoPage.MainPage.Release | Demo/UWP/DawnPlayerDemo/MainPage.xaml.cs:59-69 | the teardown is logged and nothing plays |
| DemoPage.MainPage.Unloaded | Demo/UWP/DawnPlayerDemo/MainPage.xaml.cs:24-40 | the media element is cleared when present, then the teardown |
| DemoPage.MainPage.MediaStopped | Demo/UWP/DawnPlayerDemo/MainPage.xaml.cs:127-157 | clear, teardown, then the end or failure message |
| DemoPage.MainPage.StartOpen | Demo/UWP/DawnPlayerDemo/MainPage.xaml.cs:54-70 | a cancelled picker changes nothing; otherwise teardown and a new ticket different from the old one |
| DemoPage.MainPage.FileOpened | Demo/UWP/DawnPlayerDemo/MainPage.xaml.cs:79-92 | follows AfterFileOpened with the ticket compared to the counter |
| DemoPage.MainPage.SourceCreated | Demo/UWP/DawnPlayerDemo/MainPage.xaml.cs:93-124 | follows AfterSourceCreated: installs and logs, or logs the disposals |
| DemoPage.StaleFileIsDisposed | Demo/UWP/DawnPlayerDemo/MainPage.xaml.cs:79-87 | a superseded open's stream is disposed and the newer open stays installed |
| DemoPage.StaleSourceIsDisposed | Demo/UWP/DawnPlayerDemo/MainPage.xaml.cs:103-116 | a superseded open's source and stream are disposed, nothing installed |
| DemoPage.ReopenTearsDown | Demo/UWP/DawnPlayerDemo/MainPage.xaml.cs:59-69 | a second open tears down the first one's source, then stream |

## Left out

- Reads past the end of the buffer that the C++ performs without a check (the AVC configuration record, an AAC packet of type 1 with one data byte, an MP3 tag of size 0) are undefined behaviour; the model reports them as `Error`. So is an AMF string with fewer than two length bytes left, where `decode_amf_string_without_marker` asserts (a debug abort, or a read past the end in a release build); `AmfDecode.StringWithoutMarker` reports `DecodeError`. A non-number element of the keyframe `times` or `filepositions` arrays is a null dereference in `get_video_info`; `FlvPlayer.KeyframeIndexOf` reports it as `BadIndex` (a parse error), and `FlvPlayer.KeyframeIndexAsWritten` marks it as undefined (see Findings).
- Offsets and sizes are unbounded integers; the 32-bit `size_t` arithmetic of the parser is not modelled because no buffer reaches 4 GiB.
- File and network I/O, clocks, threads, mutexes, condition variables and the coroutine machinery (`task_service`, `future_coroutine.hpp`, `io.cpp`) are not part of this model; a read's outcome is a parameter of the step that consumes it.
- Doubles (AMF numbers and dates, keyframe times and positions, duration) are kept as their 8 raw bytes; the conversion to times and positions is the parameter `timeOf`/`positionOf`.
- The string map returned by `get_video_info` and the older `open_media_completed_event` is a record; `std::to_string`, `std::stoul` and `std::stoll` formatting is not modelled; width, height and duration reach the media source as parameters.
- Metadata fields the player does not read (audio/video data rate, frame rate, codec ids) are kept only as entries of the metadata.
- FlvPlayer.Player.AdjustSampleTimestamp: nothing in the core calls it; it is modelled and proved monotone only.
- FlvPlayer.Player.UnregisterCallbacks: leaves the HEVC configuration callback set, exactly as the source does; nothing in the core depends on it.
- Samples.AudioSample.MoveAssign: a self-move is modelled as emptying the sample; C++ leaves a moved-from vector valid but unspecified, which the model fixes as empty.
- Samples.VideoSample.MoveAssign: a self-move is modelled as emptying the sample, for the same reason.
- `parse_thread_proc` of the older engine is not modelled: it is a thread loop that refills the buffer and calls the same parser as `ThreadedPlayer.Engine.Open`.
- The older engine's own copies of the parser and AMF decoder are not part of this model; they are assumed to behave as the core `FlvParser` and `AmfDecode` modules, which stand in for them. Its `samples.hpp` declares `video_sample` as a typedef of `audio_sample` (dawn_player/samples.hpp:27), with no dts and no key-frame flag; `ThreadedPlayer` queues the core's `VideoSample` instead, whose extra fields it never reads.
- ThreadedPlayer.PackedFields: each half of the packed counter is assumed to stay below 2^16 pending requests, so a carry from the audio half into the video half is not modelled.
- MediaSource.AudioPropertiesOf: returns None for a private-data string that is too short or not hex, where `std::stol` would stop at the first bad digit or throw.
- The C# adapters see the player through its events and a few calls; the player behind them is the modelled engine only where the adapter touches it.
- dpmss/FlvMediaStreamSource.cs calls player members that dawn_player/flv_player.hpp does not declare: `open_async(mediaInfo)` returning an `open_result`, `close`, `seek_async`, `seek_completed_event` and `error_occured_event` (the header has only `void open_async()` at line 71 and `get_sample_async`). In `DpmssSource` those calls and events are log entries and step parameters, not `ThreadedPlayer.Engine` operations; only the constructor and `get_sample_async` reach the engine.
- The Silverlight adapter passes over any `get_sample_result` or `open_result` value other than ok, end of stream and error; `SilverlightSource` models that value as `SampleOther` and `OpenOther`, which change nothing.
- Both `Wrap` methods return null for a null stream where the C# constructors throw `ArgumentNullException`; nothing is created in either case.
- A `NullReferenceException` in the C# adapters is modelled as a `threw` result.
- `GetDiagnosticAsync` and `SwitchMediaStreamAsync` only throw `NotImplementedException` and are not modelled.
- The `FlvMediaStreamSource` destructor is modelled by calling `Close` a second time (`MediaSource.CloseTwice`).
- `CreateFromInputStreamAsync` and `CreateFromRandomAccessStreamAsync` only wrap a stream in a proxy; the proxies are not part of this model.
- `http_random_access_stream` and `default_task_service` are not part of this model.
- The demo page's media element and message dialog are modelled as entries of an action log; the file picker and file opening are step parameters.
- DemoPage.MainPage.StartOpen: the 32-bit ticket counter wraps modulo 2^32, so a ticket can be reused after 2^32 opens; the model states the wrap and only proves the new ticket differs from the previous one.

## Findings

In the three rows on the FLV tag decoder (the AAC table, the composition time, the byte rate) the parse path follows the code as written, and the corrected definition is stated and proved beside it. In the other rows the corrected member is the one the rest of the model uses, and the as-written member stands beside it.

| source | as written | input that shows it | evidently intended | confidence | as-written member | corrected member |
|---|---|---|---|---|---|---|
| core/dawn_player/flv_parser.cpp:301-344 | the AAC frequency table maps index 0xa to 8000 and has no entry for 0xb | sampling frequency index 0xa (11025 Hz) | 0xa is 11025 Hz and 0xb is 8000 Hz, as ISO/IEC 14496-3 lists | not executed | FlvTags.AacSamplingFrequencyAsWrittenDiffers | FlvTags.AacSamplingFrequency |
| core/dawn_player/flv_parser.cpp:528-529 | the 24-bit composition time is added as an unsigned number | composition time 0xffffff (-1 ms) | the composition time is a signed 24-bit offset, as the FLV specification states | not executed | FlvTags.PresentationTimeAsWrittenNegative | FlvTags.PresentationTimeSigned |
| core/dawn_player/flv_parser.cpp:244-258 | average bytes per second is computed as rate * channels * bits / block_align, which is 8 * rate | 44100 Hz 16-bit stereo gives 352800 | rate * block_align, 176400 | not executed | FlvTags.AverageBytesAsWrittenExample | FlvTags.MakeAudioConfig |
| core/dawn_player/flv_parser.cpp:750-759 | `reset` clears every callback but `on_hevc_decoder_configuration_record` | a parser reset after HEVC registration | reset clears all callbacks | not executed | FlvParser.ResetAsWrittenKeepsHevcCallback | FlvParser.Parser.Reset |
| dawn_player/samples.cpp:62-67 | video copy assignment copies dts and timestamp but not the data | assigning a sample with data to an empty one | the data is copied too, as the copy constructor does | not executed | Samples.CopyAssignAsWrittenDropsData | Samples.VideoSample.CopyAssign |
| WindowsPhoneSilverlight/dpmss/FlvMediaStreamSource.cs:155-167 | `isSeeking` is cleared only after a successful seek report | a seek whose player result is -1 | every seek completion clears `isSeeking` | not executed | SilverlightSource.SeekAfterFailedSeekAsWritten | SilverlightSource.FlvSource.CompleteSeek |
| WindowsPhoneSilverlight/dpmss/FlvMediaStreamSource.cs:165-167 | a seek completing after `Dispose` set `flvPlayer` to null reports the seek and calls `end_seek` on null, skipping `isSeeking = false` | Seek, then Dispose(true) before the player answers, then the answer 5 | a disposed source ends the seek without touching the player | not executed | SilverlightSource.SeekAfterDisposeAsWritten | SilverlightSource.FlvSource.CompleteSeek |
| WindowsPhoneSilverlight/dpmss/FlvMediaStreamSource.cs:175-188 | `Dispose` tests `disposed` but never sets it | calling Dispose twice | the second call returns at once | not executed | SilverlightSource.DisposeTwiceAsWritten | SilverlightSource.FlvSource.Dispose |
| core/dawn_player/flv_player.cpp:120-126 | `seek` takes `keyframes.rbegin()` when lower_bound finds nothing, without checking that the table has entries | a stream whose metadata has no "keyframes" object (the table stays empty and `can_seek` is false), started at a position: `handle_starting` at FlvMediaStreamSource.cpp:137-140 still calls `seek` | an empty table refuses the seek with `seek_error`, which `handle_starting` catches | not executed | FlvPlayer.SeekWithoutKeyframesAsWritten | FlvPlayer.Player.Seek |
| core/dawn_player/flv_player.cpp:349-359 | the handler for `std::bad_cast` is meant to reject non-number keyframe elements, but `dynamic_pointer_cast` returns null instead of throwing and the result is dereferenced | a keyframes object whose `times` holds a boolean | a non-number element fails the open with a parse error | not executed | FlvPlayer.KeyframeIndexNullElement | FlvPlayer.KeyframeIndexOf |
