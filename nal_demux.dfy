/**
 * The first half of FlvMuxer::writeVideoData: strip the Annex-B start code (section B.1 of
 * ITU-T H.264), read nal_unit_type (section 7.4.1, Table 7-1) and split an SPS access unit
 * into its SPS and the PPS that the encoder appends to it.
 *
 * The source reads past the buffer for units shorter than a start code plus a type byte,
 * builds no packet for NAL types other than SPS, SLICE and SLICE_IDR (and then uses the
 * unset packet pointer), and hands memcpy a negative length when an SPS unit has no room for
 * a second start code and the PPS. Each of these is a DemuxError here. An SPS of 0 to 3 bytes,
 * which the source still packs (reading sps[1..3] past its end), is rejected
 * as a DemuxError too, so that the profile bytes always come from the SPS itself.
 */
module NalDemux {
  import opened ByteOrder
  import opened Results

  /** nal_unit_type values from Table 7-1 of ITU-T H.264. */
  const NAL_SLICE: int := 1
  const NAL_SLICE_IDR: int := 5
  const NAL_SPS: int := 7

  /** The PPS is taken to be the last four bytes of an SPS access unit. */
  const PPS_LENGTH: nat := 4

  /** The two start codes data[2] tells apart: 00 00 01 and 00 00 00 01. */
  const START_CODE_3: seq<byte> := [0x00, 0x00, 0x01]
  const START_CODE_4: seq<byte> := [0x00, 0x00, 0x00, 0x01]

  datatype DemuxError =
    | TruncatedUnit                     // no room for data[2] or for the type byte
    | UnsupportedNalType(nalType: int)  // the source leaves its packet pointer unset
    | MalformedParameterSets            // fewer than 4 SPS bytes before the PPS

  /** A prefix-stripped unit, routed by its type. */
  datatype NalUnit =
    | ParameterSets(sps: seq<byte>, pps: seq<byte>)
    | Slice(nalType: int, payload: seq<byte>)

  /** Length of the start code: 3 when data[2] is 0x01, otherwise 4. Nothing else is inspected. */
  function StartCodeLength(data: seq<byte>): (n: nat)
    requires |data| >= 3
    ensures n == 3 || n == 4
    ensures n == 3 <==> data[2] == 0x01
  {
    if data[2] == 0x01 then 3 else 4
  }

  /** nal_unit_type: the low five bits of the NAL header byte. */
  function NalType(header: byte): (t: int)
    ensures 0 <= t < 32
    ensures t == header as int % 32
  {
    ((header as bv8) & 0x1F) as int
  }

  /** True when the unit is long enough for the type byte after its start code. */
  predicate HasTypeByte(data: seq<byte>)
  {
    |data| >= 3 && |data| > StartCodeLength(data)
  }

  /** The type of the unit: the low five bits of the first byte after the start code. */
  function UnitType(data: seq<byte>): (t: int)
    requires HasTypeByte(data)
    ensures 0 <= t < 32
  {
    NalType(data[StartCodeLength(data)])
  }

  /**
   * The routing writeVideoData performs. For an SPS unit, with `length` the stripped length and
   * `prefix` the first start code's length, the SPS is the first `length - prefix - 4` bytes and
   * the PPS the last 4: the start code between them is assumed to be as long as the first.
   */
  function Demux(data: seq<byte>): (r: Result<NalUnit, DemuxError>)
    ensures r.Success? && r.value.ParameterSets? ==> |r.value.sps| >= 4
  {
    if !HasTypeByte(data) then Failure(TruncatedUnit)
    else
      var prefix := StartCodeLength(data);
      var unit := data[prefix..];
      var nalType := NalType(unit[0]);
      if nalType == NAL_SPS then
        var spsLength := |unit| - prefix - PPS_LENGTH;
        if spsLength < 4 then Failure(MalformedParameterSets)
        else Success(ParameterSets(unit[..spsLength], unit[spsLength + prefix..]))
      else if nalType == NAL_SLICE || nalType == NAL_SLICE_IDR then
        Success(Slice(nalType, unit))
      else
        Failure(UnsupportedNalType(nalType))
  }

  /**
   * Routing: a unit too short for its type byte is truncated; SPS units, when long enough for an
   * SPS of at least 4 bytes, a second start code and the PPS, become parameter sets; SLICE and
   * SLICE_IDR units become slices; every other type is unsupported and carries its type.
   */
  lemma DemuxRouting(data: seq<byte>)
    ensures Demux(data) == Failure(TruncatedUnit) <==> !HasTypeByte(data)
    ensures Demux(data).Success? && Demux(data).value.Slice? <==>
              HasTypeByte(data) && (UnitType(data) == NAL_SLICE || UnitType(data) == NAL_SLICE_IDR)
    ensures Demux(data).Success? && Demux(data).value.ParameterSets? <==>
              HasTypeByte(data) && UnitType(data) == NAL_SPS && |data| >= 2 * StartCodeLength(data) + 8
    ensures Demux(data) == Failure(MalformedParameterSets) <==>
              HasTypeByte(data) && UnitType(data) == NAL_SPS && |data| < 2 * StartCodeLength(data) + 8
    ensures Demux(data).Failure? && Demux(data).error.UnsupportedNalType? <==>
              HasTypeByte(data) && UnitType(data) !in {NAL_SLICE, NAL_SLICE_IDR, NAL_SPS}
    ensures Demux(data).Failure? && Demux(data).error.UnsupportedNalType? ==>
              Demux(data).error.nalType == UnitType(data)
  {
  }

  /** A slice's payload is the whole unit after the start code, type byte included. */
  lemma DemuxSlicePayload(data: seq<byte>)
    requires Demux(data).Success? && Demux(data).value.Slice?
    ensures var prefix, s := StartCodeLength(data), Demux(data).value;
            s.nalType == UnitType(data) && s.nalType in {NAL_SLICE, NAL_SLICE_IDR} &&
            |s.payload| == |data| - prefix && s.payload == data[prefix..]
  {
  }

  /**
   * The SPS/PPS split: the PPS is the last 4 bytes, the SPS the bytes right after the first start
   * code, and SPS, second start code and PPS together make up the stripped unit.
   */
  lemma DemuxParameterSetSplit(data: seq<byte>)
    requires Demux(data).Success? && Demux(data).value.ParameterSets?
    ensures var prefix, u := StartCodeLength(data), Demux(data).value;
            UnitType(data) == NAL_SPS && |u.pps| == PPS_LENGTH && |u.sps| >= 4 &&
            |u.sps| + prefix + |u.pps| == |data| - prefix &&
            u.sps == data[prefix..prefix + |u.sps|] && u.pps == data[|data| - PPS_LENGTH..]
  {
    var prefix := StartCodeLength(data);
    var unit := data[prefix..];
    var spsLength := |unit| - prefix - PPS_LENGTH;
    assert unit[..spsLength] == data[prefix..prefix + spsLength];
    assert unit[spsLength + prefix..] == data[|data| - PPS_LENGTH..];
  }

  /** An encoder's slice unit, behind either start code, comes back as that slice. */
  lemma DemuxSliceUnit(startCode: seq<byte>, payload: seq<byte>)
    requires startCode == START_CODE_3 || startCode == START_CODE_4
    requires |payload| > 0 && NalType(payload[0]) in {NAL_SLICE, NAL_SLICE_IDR}
    ensures Demux(startCode + payload) == Success(Slice(NalType(payload[0]), payload))
  {
    var data := startCode + payload;
    assert StartCodeLength(data) == |startCode|;
    assert data[|startCode|..] == payload;
  }

  /**
   * An SPS followed by a PPS, both behind the same start code, is split back into that SPS and
   * that PPS.
   */
  lemma DemuxParameterSetUnit(startCode: seq<byte>, sps: seq<byte>, pps: seq<byte>)
    requires startCode == START_CODE_3 || startCode == START_CODE_4
    requires |sps| >= 4 && NalType(sps[0]) == NAL_SPS && |pps| == PPS_LENGTH
    ensures Demux(startCode + sps + startCode + pps) == Success(ParameterSets(sps, pps))
  {
    var data := startCode + sps + startCode + pps;
    var k := |startCode|;
    assert StartCodeLength(data) == k;
    assert data[k] == sps[0];
    var unit := data[k..];
    assert unit == sps + startCode + pps;
    assert unit[..|sps|] == sps;
    assert unit[|sps| + k..] == pps;
  }

  /**
   * When the SPS sits behind a 3-byte start code and the PPS behind a 4-byte one, the split
   * assumes a 3-byte second start code: the SPS handed on carries the leading zero byte of the
   * second start code.
   */
  lemma DemuxMismatchedStartCodes(sps: seq<byte>, pps: seq<byte>)
    requires |sps| >= 4 && NalType(sps[0]) == NAL_SPS && |pps| == PPS_LENGTH
    ensures Demux(START_CODE_3 + sps + START_CODE_4 + pps) == Success(ParameterSets(sps + [0x00], pps))
  {
    var data := START_CODE_3 + sps + START_CODE_4 + pps;
    assert StartCodeLength(data) == 3;
    assert data[3] == sps[0];
    var unit := data[3..];
    assert unit == sps + START_CODE_4 + pps;
    assert unit[..|sps| + 1] == sps + [0x00];
    assert unit[|sps| + 4..] == pps;
  }

  /**
   * The other way round: the SPS behind a 4-byte start code and the PPS behind a 3-byte one.
   * The split assumes a 4-byte second start code, so the SPS handed on loses its last byte.
   */
  lemma DemuxMismatchedStartCodesShort(sps: seq<byte>, pps: seq<byte>)
    requires |sps| >= 5 && NalType(sps[0]) == NAL_SPS && |pps| == PPS_LENGTH
    ensures Demux(START_CODE_4 + sps + START_CODE_3 + pps) == Success(ParameterSets(sps[..|sps| - 1], pps))
  {
    var data := START_CODE_4 + sps + START_CODE_3 + pps;
    assert StartCodeLength(data) == 4;
    assert data[4] == sps[0];
    var unit := data[4..];
    assert unit == sps + START_CODE_3 + pps;
    assert unit[..|sps| - 1] == sps[..|sps| - 1];
    assert unit[|sps| + 3..] == pps;
  }
}
