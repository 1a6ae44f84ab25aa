/**
 * The RTMP packets FlvMuxer.cpp builds, as values: the envelope fields it assigns and the FLV tag
 * body it fills. Body layouts follow the FLV file format specification version 10.1, annex E.4.2.1
 * (AUDIODATA) and E.4.3.1 (VIDEODATA with an AVCVIDEOPACKET), and section 5.2.4.1 of ISO/IEC 14496-15
 * (AVCDecoderConfigurationRecord). Each body comes with a parser, and the lemmas show that the parser
 * recovers exactly what was written and accepts nothing that was not.
 */
module FlvTags {
  import opened ByteOrder
  import opened Results
  import opened NalDemux

  /** RTMP_PACKET_SIZE_LARGE and RTMP_PACKET_SIZE_MEDIUM: chunk header classes. */
  datatype HeaderSize = Large | Medium

  /** RTMP_PACKET_TYPE_VIDEO and RTMP_PACKET_TYPE_AUDIO. */
  datatype PacketType = VideoData | AudioData

  /** STREAM_CHANNEL_VIDEO and STREAM_CHANNEL_AUDIO. */
  datatype Channel = VideoChannel | AudioChannel

  /** The fields of an RTMPPacket the muxer sets; the body size is the length of `body`. */
  datatype RtmpPacket = RtmpPacket(
    headerType: HeaderSize,
    packetType: PacketType,
    hasAbsTimestamp: bool,
    channel: Channel,
    timestamp: int,
    infoField2: int,  // the RTMP stream id
    body: seq<byte>)

  // ---------------------------------------------------------------------------------------------
  // AVC sequence header: VIDEODATA (key frame, AVC) + AVCVIDEOPACKET type 0 + decoder configuration

  /**
   * One parameter-set array of the configuration record as buildSpsPpsPacket writes it: the
   * count byte, the set's length in 16 bits big-endian (its low 16 bits), then the set itself.
   */
  function ParameterSetEntry(count: byte, parameterSet: seq<byte>): (r: seq<byte>)
    ensures |r| == |parameterSet| + 3
  {
    [count] + Be16(|parameterSet|) + parameterSet
  }

  /**
   * The body buildSpsPpsPacket writes: frame type and codec, packet type 0, composition time 0,
   * then the configuration record: version 1, profile, compatibility and level copied from
   * sps[1..3], 0xFF (four-byte NAL lengths), 0xE1 (one SPS) with the SPS, 0x01 (one PPS) with
   * the PPS.
   */
  function SequenceHeaderBody(sps: seq<byte>, pps: seq<byte>): (r: seq<byte>)
    requires |sps| >= 4
    ensures |r| == |sps| + |pps| + 16
  {
    [0x17, 0x00, 0x00, 0x00, 0x00, 0x01, sps[1], sps[2], sps[3], 0xFF]
      + ParameterSetEntry(0xE1, sps) + ParameterSetEntry(0x01, pps)
  }

  /**
   * The sequence header byte by byte: 17 00 00 00 00 01, then sps[1..3], FF, E1, the SPS length
   * (its low 16 bits), the SPS, 01, the PPS length, and the PPS, which ends the body.
   */
  lemma {:induction false} SequenceHeaderLayout(sps: seq<byte>, pps: seq<byte>)
    requires |sps| >= 4
    ensures var r := SequenceHeaderBody(sps, pps);
            |r| == |sps| + |pps| + 16 &&
            r[..6] == [0x17, 0x00, 0x00, 0x00, 0x00, 0x01] &&
            r[6..9] == sps[1..4] && r[9] == 0xFF && r[10] == 0xE1 &&
            DecodeBe16(r[11..13]) == |sps| % 0x1_0000 &&
            r[13..13 + |sps|] == sps && r[13 + |sps|] == 0x01 &&
            DecodeBe16(r[14 + |sps|..16 + |sps|]) == |pps| % 0x1_0000 &&
            r[16 + |sps|..] == pps
  {
    var r := SequenceHeaderBody(sps, pps);
    var n := |sps|;
    var spsEntry, ppsEntry := ParameterSetEntry(0xE1, sps), ParameterSetEntry(0x01, pps);
    assert r[10..13 + n] == spsEntry;
    assert r[13 + n..] == ppsEntry;
    assert r[11..13] == Be16(n);
    assert r[14 + n..16 + n] == Be16(|pps|);
    Be16RoundTrip(n);
    Be16RoundTrip(|pps|);
  }

  /** The decoder configuration a reader finds in a sequence-header body. */
  datatype AvcConfig = AvcConfig(profile: byte, compatibility: byte, level: byte, sps: seq<byte>, pps: seq<byte>)

  /** Reads a sequence-header body back; None when any fixed byte or length is off. */
  function ParseSequenceHeader(body: seq<byte>): (r: Option<AvcConfig>)
  {
    if |body| < 16 || body[..6] != [0x17, 0x00, 0x00, 0x00, 0x00, 0x01]
       || body[9] != 0xFF || body[10] != 0xE1 then None
    else
      var spsLength := DecodeBe16(body[11..13]);
      if spsLength < 4 || |body| < spsLength + 16 then None
      else
        var sps := body[13..13 + spsLength];
        if body[6..9] != sps[1..4] || body[13 + spsLength] != 0x01 then None
        else
          var ppsLength := DecodeBe16(body[14 + spsLength..16 + spsLength]);
          if |body| != spsLength + ppsLength + 16 then None
          else Some(AvcConfig(body[6], body[7], body[8], sps, body[16 + spsLength..]))
  }

  /**
   * A reader of the sequence header recovers the SPS, the PPS, and profile, compatibility and
   * level as sps[1..3], as long as both lengths fit their 16-bit fields.
   */
  lemma {:induction false} SequenceHeaderRoundTrip(sps: seq<byte>, pps: seq<byte>)
    requires |sps| >= 4 && |sps| < 0x1_0000 && |pps| < 0x1_0000
    ensures ParseSequenceHeader(SequenceHeaderBody(sps, pps)) == Some(AvcConfig(sps[1], sps[2], sps[3], sps, pps))
  {
    var body := SequenceHeaderBody(sps, pps);
    var n := |sps|;
    SequenceHeaderLayout(sps, pps);
    assert DecodeBe16(body[11..13]) == n;
    assert DecodeBe16(body[14 + n..16 + n]) == |pps|;
    assert body[13..13 + n] == sps;
    assert body[6] == sps[1] && body[7] == sps[2] && body[8] == sps[3] by {
      assert body[6..9] == sps[1..4];
    }
  }

  /** Whatever the reader accepts is exactly the body the builder writes for what it read. */
  lemma {:induction false} SequenceHeaderParseExact(body: seq<byte>)
    requires ParseSequenceHeader(body).Some?
    ensures var c := ParseSequenceHeader(body).value;
            |c.sps| >= 4 && c.profile == c.sps[1] && c.compatibility == c.sps[2] && c.level == c.sps[3] &&
            SequenceHeaderBody(c.sps, c.pps) == body
  {
    var c := ParseSequenceHeader(body).value;
    var n := |c.sps|;
    assert body[6..9] == c.sps[1..4];
    Be16Canonical(body[11..13]);
    Be16Canonical(body[14 + n..16 + n]);
    var rebuilt := SequenceHeaderBody(c.sps, c.pps);
    SequenceHeaderLayout(c.sps, c.pps);
    assert rebuilt[..11] == body[..11];
    assert rebuilt[11..13] == body[11..13];
    assert rebuilt[14 + n..16 + n] == body[14 + n..16 + n];
    assert rebuilt == rebuilt[..11] + rebuilt[11..13] + rebuilt[13..13 + n] + [rebuilt[13 + n]]
                      + rebuilt[14 + n..16 + n] + rebuilt[16 + n..];
    assert body == body[..11] + body[11..13] + body[13..13 + n] + [body[13 + n]]
                   + body[14 + n..16 + n] + body[16 + n..];
  }

  // ---------------------------------------------------------------------------------------------
  // Coded frame: VIDEODATA + AVCVIDEOPACKET type 1 holding one length-prefixed NAL unit

  /** Frame type 1 (key frame) or 2 (inter frame) in the high nibble, codec 7 (AVC) in the low. */
  function FrameMarker(nalType: int): (b: byte)
  {
    if nalType == NAL_SLICE_IDR then 0x17 else 0x27
  }

  /**
   * The body buildVideoPacket writes: the frame marker, NAL_SLICE (1) as AVC packet type,
   * composition time 0, the payload length in 32 bits big-endian, then the payload.
   */
  function VideoBody(nalType: int, payload: seq<byte>): (r: seq<byte>)
    ensures |r| == |payload| + 9
  {
    [FrameMarker(nalType), 0x01, 0x00, 0x00, 0x00] + Be32(|payload|) + payload
  }

  /**
   * The coded-frame body byte by byte: 17 for SLICE_IDR and 27 otherwise, 01, 00 00 00, the
   * payload length (its low 32 bits), then the payload.
   */
  lemma {:induction false} VideoBodyLayout(nalType: int, payload: seq<byte>)
    ensures var r := VideoBody(nalType, payload);
            |r| == |payload| + 9 &&
            (r[0] == 0x17 <==> nalType == NAL_SLICE_IDR) &&
            (r[0] == 0x27 <==> nalType != NAL_SLICE_IDR) &&
            r[1..5] == [0x01, 0x00, 0x00, 0x00] &&
            DecodeBe32(r[5..9]) == |payload| % 0x1_0000_0000 &&
            r[9..] == payload
  {
    var r := VideoBody(nalType, payload);
    assert r[5..9] == Be32(|payload|);
    Be32RoundTrip(|payload|);
  }

  /** What a reader recovers from a coded-frame body: the slice type and the NAL unit. */
  datatype VideoTag = VideoTag(nalType: int, payload: seq<byte>)

  /** Reads a coded-frame body back; the key-frame marker gives SLICE_IDR, the inter marker SLICE. */
  function ParseVideoBody(body: seq<byte>): (r: Option<VideoTag>)
  {
    if |body| < 9 || body[1..5] != [0x01, 0x00, 0x00, 0x00] then None
    else if body[0] != 0x17 && body[0] != 0x27 then None
    else if DecodeBe32(body[5..9]) != |body| - 9 then None
    else Some(VideoTag(if body[0] == 0x17 then NAL_SLICE_IDR else NAL_SLICE, body[9..]))
  }

  /**
   * Decoding the length field and the marker byte of a slice's body recovers the payload and
   * its SLICE / SLICE_IDR classification.
   */
  lemma {:induction false} VideoBodyRoundTrip(nalType: int, payload: seq<byte>)
    requires nalType == NAL_SLICE || nalType == NAL_SLICE_IDR
    requires |payload| < 0x1_0000_0000
    ensures ParseVideoBody(VideoBody(nalType, payload)) == Some(VideoTag(nalType, payload))
  {
    var body := VideoBody(nalType, payload);
    VideoBodyLayout(nalType, payload);
    assert DecodeBe32(body[5..9]) == |payload|;
  }

  /** Whatever the reader accepts is exactly the body the builder writes for what it read. */
  lemma {:induction false} VideoBodyParseExact(body: seq<byte>)
    requires ParseVideoBody(body).Some?
    ensures var t := ParseVideoBody(body).value;
            (t.nalType == NAL_SLICE || t.nalType == NAL_SLICE_IDR) && VideoBody(t.nalType, t.payload) == body
  {
    var t := ParseVideoBody(body).value;
    Be32Canonical(body[5..9]);
    var rebuilt := VideoBody(t.nalType, t.payload);
    VideoBodyLayout(t.nalType, t.payload);
    assert rebuilt[..5] == body[..5];
    assert rebuilt[5..9] == body[5..9];
    assert rebuilt == rebuilt[..5] + rebuilt[5..9] + rebuilt[9..];
    assert body == body[..5] + body[5..9] + body[9..];
  }

  // ---------------------------------------------------------------------------------------------
  // Audio: AUDIODATA with SoundFormat 10 (AAC), 44 kHz, 16-bit, stereo, AACPacketType 0

  /** The body buildAudioPacket writes: 0xAF, 0x00, then the payload, whatever its length. */
  function AudioBody(payload: seq<byte>): (r: seq<byte>)
    ensures |r| == |payload| + 2
    ensures r[0] == 0xAF && r[1] == 0x00 && r[2..] == payload
  {
    [0xAF, 0x00] + payload
  }

  /** Reads an audio body back; None unless it starts with 0xAF 0x00. */
  function ParseAudioBody(body: seq<byte>): (r: Option<seq<byte>>)
  {
    if |body| >= 2 && body[0] == 0xAF && body[1] == 0x00 then Some(body[2..]) else None
  }

  /** The audio reader recovers every payload, and accepts only bodies the builder writes. */
  lemma {:induction false} AudioBodyRoundTrip(payload: seq<byte>, body: seq<byte>)
    ensures ParseAudioBody(AudioBody(payload)) == Some(payload)
    ensures ParseAudioBody(body) == Some(payload) ==> AudioBody(payload) == body
  {
    if ParseAudioBody(body) == Some(payload) {
      assert body == body[..2] + body[2..];
    }
  }

  // ---------------------------------------------------------------------------------------------
  // Envelopes

  /** The sequence-header packet: MEDIUM header, video type and channel, timestamp 0. */
  function SequenceHeaderPacket(sps: seq<byte>, pps: seq<byte>, streamId: int): (p: RtmpPacket)
    requires |sps| >= 4
    ensures p.headerType == Medium && p.packetType == VideoData && p.channel == VideoChannel
    ensures !p.hasAbsTimestamp && p.timestamp == 0 && p.infoField2 == streamId
    ensures |p.body| == |sps| + |pps| + 16
  {
    RtmpPacket(Medium, VideoData, false, VideoChannel, 0, streamId, SequenceHeaderBody(sps, pps))
  }

  /** A coded-frame packet: LARGE header, video type and channel, the caller's timestamp. */
  function SlicePacket(nalType: int, payload: seq<byte>, timestamp: int, streamId: int): (p: RtmpPacket)
    ensures p.headerType == Large && p.packetType == VideoData && p.channel == VideoChannel
    ensures !p.hasAbsTimestamp && p.timestamp == timestamp && p.infoField2 == streamId
    ensures |p.body| == |payload| + 9
  {
    RtmpPacket(Large, VideoData, false, VideoChannel, timestamp, streamId, VideoBody(nalType, payload))
  }

  /**
   * An audio packet: LARGE header, audio type and channel. A two-byte payload is the AAC
   * AudioSpecificConfig and is stamped 0; any other payload keeps the caller's timestamp.
   */
  function AudioPacket(payload: seq<byte>, timestamp: int, streamId: int): (p: RtmpPacket)
    ensures p.headerType == Large && p.packetType == AudioData && p.channel == AudioChannel
    ensures !p.hasAbsTimestamp && p.infoField2 == streamId && |p.body| == |payload| + 2
    ensures |payload| == 2 ==> p.timestamp == 0
    ensures |payload| != 2 ==> p.timestamp == timestamp
    ensures p.timestamp == 0 <==> |payload| == 2 || timestamp == 0
  {
    RtmpPacket(Large, AudioData, false, AudioChannel, if |payload| == 2 then 0 else timestamp, streamId,
               AudioBody(payload))
  }
}
