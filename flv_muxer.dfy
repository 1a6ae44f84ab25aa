/**
 * FlvMuxer's packet path: writeVideoData, writeAudioData and the three builders they call.
 * Each builder allocates a zero-filled body of the final size, writes the fixed bytes at their
 * offsets and copies the payload in, as the source does with malloc, memset, stores and memcpy.
 *
 * The RTMP session is reduced to what these functions read from it: whether it is connected
 * (RTMP_IsConnected) and its stream id (rtmp->m_stream_id). RTMP_SendPacket is recorded as the
 * packet it was given; freeing the packet afterwards is not modelled.
 */
module FlvMuxer {
  import opened ByteOrder
  import opened Results
  import opened NalDemux
  import opened FlvTags

  /** What the write functions ask of the RTMP session. */
  datatype Session = Session(connected: bool, streamId: int)

  /** One call RTMP_SendPacket(rtmp, packet, queue). */
  datatype SendCall = SendCall(packet: RtmpPacket, queue: bool)

  /** The value a write function returns and the send call it made, if any. */
  datatype Dispatch = Dispatch(code: int, sent: Option<SendCall>)

  /** The packet writeVideoData builds for a demultiplexed unit. */
  function VideoPacket(unit: NalUnit, timestamp: int, streamId: int): (p: RtmpPacket)
    requires unit.ParameterSets? ==> |unit.sps| >= 4
  {
    match unit
    case ParameterSets(sps, pps) => SequenceHeaderPacket(sps, pps, streamId)
    case Slice(nalType, payload) => SlicePacket(nalType, payload, timestamp, streamId)
  }

  /** memcpy(&dst[at], src, |src|): the bytes from `at` on become `src`, the others are kept. */
  method CopyBytes(dst: array<byte>, at: nat, src: seq<byte>)
    requires at + |src| <= dst.Length
    modifies dst
    ensures dst[..] == old(dst[..at]) + src + old(dst[at + |src|..])
  {
    var i := 0;
    while i < |src|
      invariant 0 <= i <= |src|
      invariant forall k :: 0 <= k < dst.Length ==>
                  dst[k] == if at <= k < at + i then src[k - at] else old(dst[k])
    {
      dst[at + i] := src[i];
      i := i + 1;
    }
  }

  /**
   * Writes one parameter-set array of the configuration record at `at` — the count byte, the
   * 16-bit length, the set — and returns the index after it.
   */
  method PutParameterSet(body: array<byte>, at: nat, count: byte, parameterSet: seq<byte>) returns (next: nat)
    requires at + 3 + |parameterSet| <= body.Length
    modifies body
    ensures next == at + 3 + |parameterSet|
    ensures body[..] == old(body[..at]) + ParameterSetEntry(count, parameterSet) + old(body[next..])
  {
    var index := at;
    body[index] := count; index := index + 1;
    var lengthField := Be16(|parameterSet|);  // (length >> 8) & 0xFF, length & 0xFF
    body[index] := lengthField[0]; index := index + 1;
    body[index] := lengthField[1]; index := index + 1;
    ghost var written := body[..];
    CopyBytes(body, index, parameterSet);
    next := index + |parameterSet|;

    ghost var entry := ParameterSetEntry(count, parameterSet);
    assert entry == [count, lengthField[0], lengthField[1]] + parameterSet;
    assert forall k :: 0 <= k < body.Length ==> body[k] == (old(body[..at]) + entry + old(body[next..]))[k];
  }

  /** buildSpsPpsPacket: the AVC sequence-header packet for an SPS and a PPS. */
  method BuildSpsPpsPacket(sps: seq<byte>, pps: seq<byte>, streamId: int) returns (packet: RtmpPacket)
    requires |sps| >= 4
    ensures packet == SequenceHeaderPacket(sps, pps, streamId)
  {
    var body := new byte[|sps| + |pps| + 16];  // zero-filled, like malloc and memset
    var index := 0;

    body[index] := 0x17; index := index + 1;  // key frame, AVC
    body[index] := 0x00; index := index + 1;  // AVC sequence header
    body[index] := 0x00; index := index + 1;  // composition time
    body[index] := 0x00; index := index + 1;
    body[index] := 0x00; index := index + 1;

    body[index] := 0x01; index := index + 1;    // configuration version
    body[index] := sps[1]; index := index + 1;  // profile
    body[index] := sps[2]; index := index + 1;  // profile compatibility
    body[index] := sps[3]; index := index + 1;  // level
    body[index] := 0xFF; index := index + 1;    // length size minus one
    ghost var header := body[..10];
    assert header == [0x17, 0x00, 0x00, 0x00, 0x00, 0x01, sps[1], sps[2], sps[3], 0xFF];

    index := PutParameterSet(body, index, 0xE1, sps);  // one SPS
    assert body[..index] == header + ParameterSetEntry(0xE1, sps);
    index := PutParameterSet(body, index, 0x01, pps);  // one PPS
    assert body[..] == SequenceHeaderBody(sps, pps) by {
      assert body[index..] == [];
    }

    packet := RtmpPacket(Medium, VideoData, false, VideoChannel, 0, streamId, body[..]);
  }

  /** buildVideoPacket: a coded-frame packet carrying one NAL unit. */
  method BuildVideoPacket(nalType: int, data: seq<byte>, timestamp: int, streamId: int) returns (packet: RtmpPacket)
    ensures packet == SlicePacket(nalType, data, timestamp, streamId)
  {
    var length := |data|;
    var body := new byte[length + 9];
    body[0] := if nalType == NAL_SLICE_IDR then 0x17 else 0x27;  // key frame or inter frame, AVC
    body[1] := NAL_SLICE as byte;                               // AVC NALU
    body[2] := 0x00;                                            // composition time
    body[3] := 0x00;
    body[4] := 0x00;
    var lengthField := Be32(length);  // (length >> 24) & 0xff, ..., length & 0xff
    body[5] := lengthField[0];
    body[6] := lengthField[1];
    body[7] := lengthField[2];
    body[8] := lengthField[3];
    ghost var header := body[..9];
    assert header == [FrameMarker(nalType), 0x01, 0x00, 0x00, 0x00] + Be32(length);
    CopyBytes(body, 9, data);
    assert body[..] == header + data by {
      assert body[9 + length..] == [];
    }

    packet := RtmpPacket(Large, VideoData, false, VideoChannel, timestamp, streamId, body[..]);
  }

  /** buildAudioPacket: an AAC packet; a two-byte payload is the configuration and is stamped 0. */
  method BuildAudioPacket(data: seq<byte>, timestamp: int, streamId: int) returns (packet: RtmpPacket)
    ensures packet == AudioPacket(data, timestamp, streamId)
  {
    var length := |data|;
    var body := new byte[length + 2];
    body[0] := 0xAF;  // AAC, 44 kHz, 16-bit, stereo
    body[1] := 0x00;  // AACPacketType 0, written for every payload
    CopyBytes(body, 2, data);

    assert body[2 + length..] == [];
    var stamp := if length == 2 then 0 else timestamp;
    packet := RtmpPacket(Large, AudioData, false, AudioChannel, stamp, streamId, body[..]);
  }

  /** Hands the packet to RTMP_SendPacket, queued, only while the session is connected; returns 0. */
  method SendIfConnected(packet: RtmpPacket, session: Session) returns (d: Dispatch)
    ensures d.code == 0
    ensures d.sent.Some? <==> session.connected
    ensures d.sent.Some? ==> d.sent.value == SendCall(packet, true)
  {
    var sent := None;
    if session.connected {
      sent := Some(SendCall(packet, true));
    }
    d := Dispatch(0, sent);
  }

  /**
   * writeVideoData: strip the start code, route the unit by its type, build its packet and send
   * it if connected. The cases the source does not survive are reported instead, and nothing is
   * sent for them.
   */
  method WriteVideoData(data: seq<byte>, timestamp: int, session: Session) returns (r: Result<Dispatch, DemuxError>)
    ensures Demux(data).Failure? ==> r == Failure(Demux(data).error)
    ensures Demux(data).Success? ==> r.Success? && r.value.code == 0
    ensures Demux(data).Success? ==> (r.value.sent.Some? <==> session.connected)
    ensures Demux(data).Success? && r.value.sent.Some? ==>
              r.value.sent.value == SendCall(VideoPacket(Demux(data).value, timestamp, session.streamId), true)
  {
    if |data| < 3 {
      return Failure(TruncatedUnit);
    }
    var nalStartPrefixBytes := 4;
    if data[2] == 0x01 {
      nalStartPrefixBytes := 3;
    }
    if |data| <= nalStartPrefixBytes {
      return Failure(TruncatedUnit);
    }

    // data += nalStartPrefixBytes; length -= nalStartPrefixBytes
    var unit := data[nalStartPrefixBytes..];
    var length := |data| - nalStartPrefixBytes;

    var nalType := NalType(unit[0]);
    var packet: RtmpPacket;
    if nalType == NAL_SPS {
      var ppsLength := PPS_LENGTH;
      var spsLength := length - nalStartPrefixBytes - ppsLength;
      if spsLength < 4 {
        return Failure(MalformedParameterSets);
      }
      var ppsStart := spsLength + nalStartPrefixBytes;
      assert ppsStart + ppsLength == |unit|;
      var sps, pps := unit[..spsLength], unit[ppsStart..ppsStart + ppsLength];
      assert pps == unit[ppsStart..];
      assert Demux(data) == Success(ParameterSets(sps, pps));
      packet := BuildSpsPpsPacket(sps, pps, session.streamId);
      assert packet == VideoPacket(ParameterSets(sps, pps), timestamp, session.streamId);
    } else if nalType == NAL_SLICE || nalType == NAL_SLICE_IDR {
      assert unit[..length] == unit;
      assert Demux(data) == Success(Slice(nalType, unit));
      packet := BuildVideoPacket(nalType, unit[..length], timestamp, session.streamId);
      assert packet == VideoPacket(Slice(nalType, unit), timestamp, session.streamId);
    } else {
      return Failure(UnsupportedNalType(nalType));
    }

    var d := SendIfConnected(packet, session);
    r := Success(d);
  }

  /** writeAudioData: build the audio packet and send it if connected; always returns 0. */
  method WriteAudioData(data: seq<byte>, timestamp: int, session: Session) returns (d: Dispatch)
    ensures d.code == 0
    ensures d.sent.Some? <==> session.connected
    ensures d.sent.Some? ==> d.sent.value == SendCall(AudioPacket(data, timestamp, session.streamId), true)
  {
    var packet := BuildAudioPacket(data, timestamp, session.streamId);
    d := SendIfConnected(packet, session);
  }

  // ---------------------------------------------------------------------------------------------
  // End to end: what a reader of the sent packets recovers from the encoder's access units

  /**
   * A slice behind either start code is sent, when connected, as a LARGE video packet with the
   * caller's timestamp whose body a reader decodes back to the slice type and the NAL unit.
   */
  lemma {:induction false} SliceEndToEnd(startCode: seq<byte>, payload: seq<byte>, timestamp: int, streamId: int)
    requires startCode == START_CODE_3 || startCode == START_CODE_4
    requires |payload| > 0 && NalType(payload[0]) in {NAL_SLICE, NAL_SLICE_IDR}
    requires |payload| < 0x1_0000_0000
    ensures var u := Demux(startCode + payload);
            u.Success? && u.value.Slice? &&
            var p := VideoPacket(u.value, timestamp, streamId);
            p.timestamp == timestamp && p.headerType == Large && p.channel == VideoChannel &&
            ParseVideoBody(p.body) == Some(VideoTag(NalType(payload[0]), payload))
  {
    DemuxSliceUnit(startCode, payload);
    VideoBodyRoundTrip(NalType(payload[0]), payload);
  }

  /**
   * An SPS and its PPS behind matching start codes are sent as a MEDIUM video packet stamped 0
   * whose body a reader decodes back to that SPS, that PPS and the profile, compatibility and
   * level bytes sps[1..3].
   */
  lemma {:induction false} ParameterSetsEndToEnd(startCode: seq<byte>, sps: seq<byte>, pps: seq<byte>,
                                                 timestamp: int, streamId: int)
    requires startCode == START_CODE_3 || startCode == START_CODE_4
    requires |sps| >= 4 && NalType(sps[0]) == NAL_SPS && |pps| == PPS_LENGTH && |sps| < 0x1_0000
    ensures var u := Demux(startCode + sps + startCode + pps);
            u.Success? && u.value.ParameterSets? &&
            var p := VideoPacket(u.value, timestamp, streamId);
            p.timestamp == 0 && p.headerType == Medium && p.channel == VideoChannel &&
            ParseSequenceHeader(p.body) == Some(AvcConfig(sps[1], sps[2], sps[3], sps, pps))
  {
    DemuxParameterSetUnit(startCode, sps, pps);
    SequenceHeaderRoundTrip(sps, pps);
  }
}
