// The transport packet decoder (src/ts_packet.c), ISO/IEC 13818-1 section 2.4.3.
module TsPackets {
  import opened Bytes

  datatype TsPacket = TsPacket(
    pid: nat,
    transportError: bool,
    payloadUnitStart: bool,
    transportPriority: bool,
    scrambling: nat,
    adaptationFieldControl: nat,
    continuityCounter: nat,
    hasAdaptation: bool,
    hasPayload: bool,
    discontinuityIndicator: bool,
    hasPcr: bool,
    pcrBase: nat,
    payloadOffset: nat,
    payloadSize: nat)

  /** The 33-bit program clock reference base stored at `raw[6..11]`. */
  function ReadPcrBase(raw: Raw): (base: nat)
    ensures base < 0x2_0000_0000
  {
    N(raw[6]) * 0x200_0000 + N(raw[7]) * 0x2_0000 + N(raw[8]) * 0x200 + N(raw[9]) * 2 + N(raw[10]) / 128
  }

  /** `ts_packet_parse`: None when the sync byte, the control bits or the adaptation length rule the packet out. */
  function Parse(raw: Raw): (r: Option<TsPacket>)
    ensures r.Some? ==>
              && r.value.pid < PID_COUNT
              && r.value.continuityCounter < 16
              && 4 <= r.value.payloadOffset <= PACKET_SIZE
              && r.value.payloadSize <= PACKET_SIZE - r.value.payloadOffset
              && (r.value.hasPayload ==> r.value.payloadSize == PACKET_SIZE - r.value.payloadOffset)
              && (!r.value.hasPayload ==> r.value.payloadSize == 0)
              && (r.value.hasPcr ==> r.value.hasAdaptation && raw[4] > 0)
  {
    var afc := raw[3] / 16 % 4;
    var adaptation := afc == 2 || afc == 3;
    var payload := afc == 1 || afc == 3;
    if raw[0] != SYNC_BYTE || afc == 0 || (adaptation && 5 + raw[4] > PACKET_SIZE) then None else
    var hasFlags := adaptation && raw[4] > 0;
    var hasPcr := hasFlags && Bit(raw[5], 16);
    var offset := if adaptation then 5 + raw[4] else 4;
    Some(TsPacket(
      pid := N(raw[1]) % 32 * 256 + N(raw[2]),
      transportError := Bit(raw[1], 128),
      payloadUnitStart := Bit(raw[1], 64),
      transportPriority := Bit(raw[1], 32),
      scrambling := raw[3] / 64 % 4,
      adaptationFieldControl := afc,
      continuityCounter := raw[3] % 16,
      hasAdaptation := adaptation,
      hasPayload := payload,
      discontinuityIndicator := hasFlags && Bit(raw[5], 128),
      hasPcr := hasPcr,
      pcrBase := if hasPcr && raw[4] >= 7 then ReadPcrBase(raw) else 0,
      payloadOffset := offset,
      payloadSize := if payload then PACKET_SIZE - offset else 0))
  }

  /** The payload bounds a decoded packet always has. */
  predicate Layout(pkt: TsPacket)
  {
    4 <= pkt.payloadOffset <= PACKET_SIZE && pkt.payloadSize <= PACKET_SIZE - pkt.payloadOffset
  }

  /** Everything but the clock reference is decoded from the first six bytes. */
  lemma ParseFromHeader(a: Raw, b: Raw)
    requires a[..6] == b[..6] && Parse(a).Some?
    ensures Parse(b).Some? && Parse(b).value == Parse(a).value.(pcrBase := Parse(b).value.pcrBase)
    ensures Parse(b).value.hasPcr && b[4] >= 7 ==> Parse(b).value.pcrBase == ReadPcrBase(b)
    ensures a[6..11] == b[6..11] ==> Parse(b) == Parse(a)
  {
    assert forall i :: 0 <= i < 6 ==> a[i] == a[..6][i] == b[..6][i] == b[i];
    if a[6..11] == b[6..11] {
      assert forall i :: 6 <= i < 11 ==> a[i] == a[6..11][i - 6] == b[6..11][i - 6] == b[i];
    }
  }

  /** `raw[3] = (raw[3] & 0xf0) | (cc & 0x0f)`. */
  function WithCc(raw: Raw, cc: nat): (r: Raw)
  {
    raw[3 := raw[3] / 16 * 16 + cc % 16]
  }

  /** Rewriting the counter changes the decoded counter and nothing else. */
  lemma ParseWithCc(raw: Raw, cc: nat)
    ensures Parse(raw).None? ==> Parse(WithCc(raw, cc)).None?
    ensures Parse(raw).Some? ==>
              Parse(WithCc(raw, cc)) == Some(Parse(raw).value.(continuityCounter := cc % 16))
  {
    var r := WithCc(raw, cc);
    assert r[3] / 16 == raw[3] / 16;
    assert r[3] / 64 == r[3] / 16 / 4 && raw[3] / 64 == raw[3] / 16 / 4;
  }

  /** `make_null_packet`: PID 0x1fff, payload only, filled with 0xff. */
  function NullPacket(): (r: Raw)
    ensures Parse(r).Some?
    ensures Parse(r).value.pid == NULL_PID
    ensures !Parse(r).value.transportError && !Parse(r).value.payloadUnitStart && !Parse(r).value.hasPcr
  {
    [0x47, 0x1f, 0xff, 0x10] + seq(PACKET_SIZE - 4, _ => 0xff)
  }

  /** The structure before anything is decoded into it. */
  function NoPacket(): TsPacket
  {
    TsPacket(0, false, false, false, 0, 0, 0, false, false, false, false, 0, 4, 0)
  }
}
