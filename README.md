# FLV/RTMP framing of SimpleStreaming's FlvMuxer, in Dafny

This project models the packet path of `FlvMuxer` in SimpleStreaming's native library. That path turns H.264 access units and AAC frames into RTMP packets carrying FLV tag bodies.

- **Video demultiplexing.** `writeVideoData` strips the Annex-B start code (section B.1 of ITU-T H.264). It decides the code's length from the third byte alone. It then reads `nal_unit_type` (section 7.4.1 of ITU-T H.264) and routes the unit:
  - SPS units (type 7) go to the AVC sequence-header builder. The PPS is split off by position: the last 4 bytes are the PPS, and the start code in front of them is assumed to be as long as the first one.
  - SLICE (1) and SLICE_IDR (5) units go to the coded-frame builder.
- **Sequence header.** `buildSpsPpsPacket` writes the FLV VIDEODATA/AVCVIDEOPACKET header (annex E.4.3.1 of the FLV file format specification v10.1). After it comes an AVCDecoderConfigurationRecord (section 5.2.4.1 of ISO/IEC 14496-15).
- **Coded frame.** `buildVideoPacket` writes a key-frame or inter-frame marker, packet type 1, a zero composition time, the 32-bit big-endian payload length, and then the NAL unit.
- **Audio.** `buildAudioPacket` writes `AF 00` followed by the AAC payload (annex E.4.2.1). A 2-byte payload is taken to be the AudioSpecificConfig and is stamped 0.
- **Dispatch.** `writeVideoData` and `writeAudioData` hand the packet to `RTMP_SendPacket` only while the session is connected. Both return 0 either way.

Modules:

- `Results` (results.dfy): Option and Result.
- `ByteOrder` (byte_order.dfy): the `byte` type, and the 16- and 32-bit big-endian fields written with shifts and masks. It also holds their decoders and the round-trip lemmas between the two.
- `NalDemux` (nal_demux.dfy): `Demux`, a pure specification of the prefix strip, the type classification and the SPS/PPS split, with its lemmas.
- `FlvTags` (flv_tags.dfy): the `RtmpPacket` value, with specification functions for each body and envelope. Each body has a parser. Lemmas show the parser recovers what was written and accepts nothing else.
- `FlvMuxer` (flv_muxer.dfy): the imperative code. Each builder allocates a zero-filled `array<byte>` of the final size and writes the fixed bytes at their offsets. `buildSpsPpsPacket` keeps its running `index`. `memcpy` is the `CopyBytes` loop. Each method is proved equal to the specification function. The module ends with end-to-end lemmas from access unit to decoded tag.

The session is reduced to what the write functions read from it. `RTMP_IsConnected(rtmp)` becomes `Session.connected`, and `rtmp->m_stream_id` becomes `Session.streamId`. A call of `RTMP_SendPacket` is recorded as the `SendCall` it received.

Where the code has undefined behaviour, the model reports an error instead:

- A unit with fewer than 3 bytes: `data[2]` is read out of bounds.
- A unit with no byte after its start code.
- A NAL type other than SPS, SLICE or SLICE_IDR: the packet pointer is left unset and then dereferenced.
- An SPS unit with no room for a second start code and the 4-byte PPS: the SPS length is negative and `memcpy` is handed it.

Each of these is a `DemuxError`, and `WriteVideoData` sends nothing for it.

What the code does not check, kept as written:

- Only the third byte decides the start-code length. The first two bytes are not checked.
- The PPS is always the last 4 bytes. Nothing checks that it is a PPS.
- The SPS length field keeps only the low 16 bits of the length.
- An empty slice payload is not an error.

The audio body's second byte is 0x00 for every payload, as the code writes it, although annex E.4.2.1 gives raw AAC frames AACPacketType 1.

## Model

| member | source | states |
|---|---|---|
| ByteOrder.Be16RoundTrip | library/src/main/cpp/libsimplestreaming/source/FlvMuxer.cpp:133-134 | reading back the two bytes `(n >> 8) & 0xFF`, `n & 0xFF` gives n modulo 2^16: the length fields keep only the low 16 bits |
| ByteOrder.Be16Canonical | library/src/main/cpp/libsimplestreaming/source/FlvMuxer.cpp:142-143 | every 2-byte field is exactly the encoding of the number it decodes to, so the encoding is onto |
| ByteOrder.Be32RoundTrip | library/src/main/cpp/libsimplestreaming/source/FlvMuxer.cpp:174-177 | reading back the four shifted and masked bytes gives the length modulo 2^32 |
| ByteOrder.Be32Canonical | library/src/main/cpp/libsimplestreaming/source/FlvMuxer.cpp:174-177 | every 4-byte field is exactly the encoding of the number it decodes to |
| NalDemux.StartCodeLength | library/src/main/cpp/libsimplestreaming/source/FlvMuxer.cpp:51-54 | the prefix is 3 bytes if and only if data[2] is 0x01, and 4 bytes otherwise |
| NalDemux.NalType | library/src/main/cpp/libsimplestreaming/source/FlvMuxer.cpp:59 | `header & 0x1F` lies in 0..31 and equals the header byte modulo 32 |
| NalDemux.Demux | library/src/main/cpp/libsimplestreaming/source/FlvMuxer.cpp:49-72 | a parameter-set result always carries an SPS of at least 4 bytes, so sps[1..3] exist |
| NalDemux.DemuxRouting | library/src/main/cpp/libsimplestreaming/source/FlvMuxer.cpp:59-72 | each outcome holds if and only if its condition does: truncated means no type byte; slice means type 1 or 5; parameter sets means type 7 with room for SPS, second prefix and PPS; malformed means type 7 without that room; unsupported means any other type, and it carries that type |
| NalDemux.DemuxSlicePayload | library/src/main/cpp/libsimplestreaming/source/FlvMuxer.cpp:56-57 | a slice's payload is the input after the prefix, `length - prefix` bytes, with the type taken from its first byte |
| NalDemux.DemuxParameterSetSplit | library/src/main/cpp/libsimplestreaming/source/FlvMuxer.cpp:66-69 | the PPS is the last 4 bytes, the SPS the bytes right after the prefix, `spsLength + prefix + ppsLength == length`, and spsLength >= 4 |
| NalDemux.DemuxSliceUnit | library/src/main/cpp/libsimplestreaming/source/FlvMuxer.cpp:50-71 | a slice behind a 3- or 4-byte start code comes back as that slice, with its own type |
| NalDemux.DemuxParameterSetUnit | library/src/main/cpp/libsimplestreaming/source/FlvMuxer.cpp:62-69 | an SPS and a 4-byte PPS behind two equal start codes come back as exactly that SPS and that PPS |
| NalDemux.DemuxMismatchedStartCodes | library/src/main/cpp/libsimplestreaming/source/FlvMuxer.cpp:66-67 | with a 3-byte first and a 4-byte second start code, the SPS handed on gains the second code's leading zero byte |
| NalDemux.DemuxMismatchedStartCodesShort | library/src/main/cpp/libsimplestreaming/source/FlvMuxer.cpp:66-67 | with a 4-byte first and a 3-byte second start code, the SPS handed on loses its last byte |
| FlvTags.SequenceHeaderBody | library/src/main/cpp/libsimplestreaming/source/FlvMuxer.cpp:108 | the body is spsLength + ppsLength + 16 bytes long |
| FlvTags.SequenceHeaderLayout | library/src/main/cpp/libsimplestreaming/source/FlvMuxer.cpp:112-145 | bytes 0-5 are 17 00 00 00 00 01, 6-8 are sps[1..3], 9 is FF, 10 is E1, 11-12 hold the SPS length modulo 2^16, then the SPS, 01, the PPS length and the PPS, which ends the body |
| FlvTags.SequenceHeaderRoundTrip | library/src/main/cpp/libsimplestreaming/source/FlvMuxer.cpp:115-145 | a reader recovers the SPS, the PPS, and profile, compatibility and level as sps[1..3], when both lengths fit 16 bits |
| FlvTags.SequenceHeaderParseExact | library/src/main/cpp/libsimplestreaming/source/FlvMuxer.cpp:115-145 | every body the reader accepts is exactly the body built from what it read |
| FlvTags.VideoBody | library/src/main/cpp/libsimplestreaming/source/FlvMuxer.cpp:160 | the body is length + 9 bytes long |
| FlvTags.VideoBodyLayout | library/src/main/cpp/libsimplestreaming/source/FlvMuxer.cpp:167-180 | byte 0 is 0x17 if and only if the type is SLICE_IDR and 0x27 otherwise, bytes 1-4 are 01 00 00 00, bytes 5-8 decode to the length modulo 2^32, and the payload follows |
| FlvTags.VideoBodyRoundTrip | library/src/main/cpp/libsimplestreaming/source/FlvMuxer.cpp:166-180 | decoding bytes 5-8 and the marker byte recovers the payload and its SLICE / SLICE_IDR classification |
| FlvTags.VideoBodyParseExact | library/src/main/cpp/libsimplestreaming/source/FlvMuxer.cpp:166-180 | every body the reader accepts is exactly the body built for the type and payload it read |
| FlvTags.AudioBody | library/src/main/cpp/libsimplestreaming/source/FlvMuxer.cpp:195-207 | the body is length + 2 bytes: AF, 00, then the payload, for every payload |
| FlvTags.AudioBodyRoundTrip | library/src/main/cpp/libsimplestreaming/source/FlvMuxer.cpp:201-207 | the audio reader recovers every payload and accepts only bodies the builder writes |
| FlvTags.SequenceHeaderPacket | library/src/main/cpp/libsimplestreaming/source/FlvMuxer.cpp:102-108 | the envelope is MEDIUM, video type and channel, relative timestamp 0, the stream id, and a body of spsLength + ppsLength + 16 bytes |
| FlvTags.SlicePacket | library/src/main/cpp/libsimplestreaming/source/FlvMuxer.cpp:154-160 | the envelope is LARGE, video type and channel, the caller's timestamp as a relative one, the stream id, and a body of length + 9 bytes |
| FlvTags.AudioPacket | library/src/main/cpp/libsimplestreaming/source/FlvMuxer.cpp:189-195 | the timestamp is 0 for a 2-byte payload and the caller's otherwise (so it is 0 exactly when the payload has 2 bytes or the caller passed 0); LARGE header, audio type and channel, relative timestamp, the stream id, and a body of length + 2 bytes |
| FlvMuxer.CopyBytes | library/src/main/cpp/libsimplestreaming/source/FlvMuxer.cpp:136 | memcpy: the bytes from the offset on become the source, and every other byte is unchanged |
| FlvMuxer.PutParameterSet | library/src/main/cpp/libsimplestreaming/source/FlvMuxer.cpp:131-145 | writes count byte, 16-bit length and the parameter set at the index, leaves the rest of the body unchanged, and returns the index after them |
| FlvMuxer.BuildSpsPpsPacket | library/src/main/cpp/libsimplestreaming/source/FlvMuxer.cpp:97-148 | the packet built in a fresh array is SequenceHeaderPacket(sps, pps, streamId) |
| FlvMuxer.BuildVideoPacket | library/src/main/cpp/libsimplestreaming/source/FlvMuxer.cpp:150-183 | the packet built in a fresh array is SlicePacket(nalType, payload, timestamp, streamId) |
| FlvMuxer.BuildAudioPacket | library/src/main/cpp/libsimplestreaming/source/FlvMuxer.cpp:185-210 | the packet built in a fresh array is AudioPacket(payload, timestamp, streamId) |
| FlvMuxer.SendIfConnected | library/src/main/cpp/libsimplestreaming/source/FlvMuxer.cpp:74-81 | the packet is handed to RTMP_SendPacket, queued, if and only if the session is connected, and the result is 0 either way |
| FlvMuxer.WriteVideoData | library/src/main/cpp/libsimplestreaming/source/FlvMuxer.cpp:49-82 | a demultiplexing error is returned as is and nothing is sent; otherwise the call returns 0 and sends, exactly when connected, the packet Demux's unit calls for |
| FlvMuxer.WriteAudioData | library/src/main/cpp/libsimplestreaming/source/FlvMuxer.cpp:84-95 | returns 0 and sends, exactly when connected, AudioPacket(payload, timestamp, streamId) |
| FlvMuxer.SliceEndToEnd | library/src/main/cpp/libsimplestreaming/source/FlvMuxer.cpp:49-71 | a slice behind either start code becomes a LARGE video packet with the caller's timestamp whose body decodes back to the slice's type and payload |
| FlvMuxer.ParameterSetsEndToEnd | library/src/main/cpp/libsimplestreaming/source/FlvMuxer.cpp:61-69 | an SPS and PPS behind equal start codes become a MEDIUM video packet stamped 0 whose body decodes back to that SPS, that PPS and sps[1..3] |

## Left out

- The RTMP connection lifecycle is not modelled: the constructor, destructor, `start`, `stop` and `isPlaying` (FlvMuxer.cpp:4-47). They are network I/O through librtmp, and librtmp is not part of this model.
- `RTMP_SendPacket` is not modelled beyond recording the packet and the queue flag it was given. The source ignores its result too.
- `malloc`, `memset` and `free` are not modelled as such. Each body is a fresh zero-filled array whose contents end up in the packet value, and releasing the packet after the send check is not modelled.
- `debug_print` logging is left out.
- FlvMuxer.h is not part of this model. The NAL type values 1, 5 and 7 are taken from Table 7-1 of ITU-T H.264. The header-size, packet-type and channel constants are distinct enumeration values.
- `m_nBodySize` is not a field of the packet value. It is the length of `body`.
- Integer widths are not modelled. Lengths are unbounded naturals, so the C `int` overflow of `length + 9` or `spsLength + ppsLength + 16` for lengths near 2^31 is not captured, and neither is the width librtmp gives the timestamp field.
- The encoder's own guarantee that the second start code matches the first is not modelled. `DemuxMismatchedStartCodes` (3-byte code first, 4-byte second) and `DemuxMismatchedStartCodesShort` (4-byte first, 3-byte second) show what the split does in each order.
- NalDemux.Demux: an SPS unit whose SPS length comes out as 0 to 3 (but not negative) is rejected as `MalformedParameterSets`. The source instead builds a sequence header of spsLength + 20 bytes, whose profile, compatibility and level bytes are bytes 1 to 3 of the stripped unit (`sps[1..3]` read past the end of the short SPS).
- FlvMuxer.WriteVideoData: for the same units nothing is sent and the error is returned, where the source sends that sequence header and returns 0.
