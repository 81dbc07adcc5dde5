// Packets as a multiplexer writes them decode to what was written (src/ts_packet.c, src/psi.c:86-106),
// ISO/IEC 13818-1 sections 2.4.3.2 to 2.4.3.5 and 2.4.4.1.
module PacketCodecs {
  import opened Bytes
  import opened TsPackets
  import opened PsiTables

  /** A packet to be written. The adaptation field is given without its length byte; its first byte holds its flags. */
  datatype Packet = Packet(
    error: bool,
    start: bool,
    priority: bool,
    pid: nat,
    scrambling: nat,
    cc: nat,
    adaptation: Option<seq<byte>>,
    carriesPayload: bool,
    payload: seq<byte>)

  predicate PacketOk(p: Packet)
  {
    && p.pid < 0x2000 && p.scrambling < 4 && p.cc < 16
    && (p.adaptation.Some? || p.carriesPayload)
    && |p.payload| + (if p.adaptation.Some? then 1 + |p.adaptation.value| else 0) == 184
  }

  function Flag(b: bool, weight: nat): nat
  {
    if b then weight else 0
  }

  function PacketBytes(p: Packet): (r: Raw)
    requires PacketOk(p)
  {
    [0x47,
     (Flag(p.error, 128) + Flag(p.start, 64) + Flag(p.priority, 32) + p.pid / 256) as byte,
     p.pid % 256,
     (p.scrambling * 64 + Flag(p.adaptation.Some?, 32) + Flag(p.carriesPayload, 16) + p.cc) as byte]
    + (if p.adaptation.Some? then [|p.adaptation.value| as byte] + p.adaptation.value else [])
    + p.payload
  }

  /** Five bytes hold the 33 bits of a clock reference, the topmost first. */
  function BaseOf(a: seq<byte>): nat
    requires |a| >= 6
  {
    (((N(a[1]) * 256 + N(a[2])) * 256 + N(a[3])) * 256 + N(a[4])) * 2 + N(a[5]) / 128
  }

  function Decoded(p: Packet): TsPacket
    requires PacketOk(p)
  {
    var a := if p.adaptation.Some? then p.adaptation.value else [];
    var hasPcr := a != [] && N(a[0]) / 16 % 2 == 1;
    TsPacket(
      pid := p.pid,
      transportError := p.error,
      payloadUnitStart := p.start,
      transportPriority := p.priority,
      scrambling := p.scrambling,
      adaptationFieldControl := Flag(p.adaptation.Some?, 2) + Flag(p.carriesPayload, 1),
      continuityCounter := p.cc,
      hasAdaptation := p.adaptation.Some?,
      hasPayload := p.carriesPayload,
      discontinuityIndicator := a != [] && N(a[0]) / 128 == 1,
      hasPcr := hasPcr,
      pcrBase := if hasPcr && |a| >= 7 then BaseOf(a) else 0,
      payloadOffset := 188 - |p.payload|,
      payloadSize := if p.carriesPayload then |p.payload| else 0)
  }

  lemma HeaderBytes(p: Packet)
    requires PacketOk(p)
    ensures var r := PacketBytes(p);
            && r[0] == 0x47
            && N(r[1]) == Flag(p.error, 128) + Flag(p.start, 64) + Flag(p.priority, 32) + p.pid / 256 && r[2] == p.pid % 256
            && N(r[3]) == p.scrambling * 64 + Flag(p.adaptation.Some?, 32) + Flag(p.carriesPayload, 16) + p.cc
    ensures var r := PacketBytes(p);
            && r[188 - |p.payload|..] == p.payload
            && (p.adaptation.Some? ==> r[4] == |p.adaptation.value| && r[5..5 + |p.adaptation.value|] == p.adaptation.value)
  {
  }

  lemma AdaptationBytes(p: Packet)
    requires PacketOk(p) && p.adaptation.Some?
    ensures var r, a := PacketBytes(p), p.adaptation.value; forall i :: 0 <= i < |a| ==> r[5 + i] == a[i]
  {
    HeaderBytes(p);
    var r, a := PacketBytes(p), p.adaptation.value;
    hide PacketBytes;
    forall i | 0 <= i < |a| ensures r[5 + i] == a[i] {
      assert r[5 + i] == r[5..5 + |a|][i];
    }
  }

  lemma Bits1(error: bool, start: bool, priority: bool, high: nat)
    requires high < 32
    ensures var b := Flag(error, 128) + Flag(start, 64) + Flag(priority, 32) + high;
            b < 256 && (b / 128 % 2 == 1 <==> error) && (b / 64 % 2 == 1 <==> start) && (b / 32 % 2 == 1 <==> priority) && b % 32 == high
  {
  }

  lemma Bits3(scrambling: nat, adaptation: bool, payload: bool, cc: nat)
    requires scrambling < 4 && cc < 16
    ensures var b := scrambling * 64 + Flag(adaptation, 32) + Flag(payload, 16) + cc;
            b < 256 && b / 64 == scrambling && b / 16 % 4 == Flag(adaptation, 2) + Flag(payload, 1) && b % 16 == cc
  {
  }

  /** Decoding gives back every field written. */
  lemma PacketDecodes(p: Packet)
    requires PacketOk(p)
    ensures Parse(PacketBytes(p)) == Some(Decoded(p))
  {
    HeaderBytes(p);
    Bits1(p.error, p.start, p.priority, p.pid / 256);
    Bits3(p.scrambling, p.adaptation.Some?, p.carriesPayload, p.cc);
    if p.adaptation.Some? {
      AdaptationBytes(p);
    }
    hide PacketBytes, Flag;
  }

  /** A packet is refused for its sync byte, for having neither adaptation field nor payload, and for an adaptation field
      that overruns it. */
  lemma RefusedPackets(raw: Raw)
    ensures Parse(raw).None? <==>
            || raw[0] != 0x47
            || N(raw[3]) / 16 % 4 == 0
            || (N(raw[3]) / 32 % 2 == 1 && N(raw[4]) > 183)
  {
  }

  /** Every packet that decodes is such a packet. */
  lemma EveryPacketWritten(raw: Raw) returns (p: Packet)
    requires Parse(raw).Some?
    ensures PacketOk(p) && PacketBytes(p) == raw
  {
    var b1, b3 := N(raw[1]), N(raw[3]);
    var adapted := b3 / 32 % 2 == 1;
    var n := if adapted then N(raw[4]) else 0;
    var at := if adapted then 5 + n else 4;
    p := Packet(b1 / 128 == 1, b1 / 64 % 2 == 1, b1 / 32 % 2 == 1, b1 % 32 * 256 + N(raw[2]), b3 / 64, b3 % 16,
                if adapted then Some(raw[5..at]) else None, b3 / 16 % 2 == 1, raw[at..]);
    ByteOfFlags(b1);
    ByteOfControls(b3);
    var r := PacketBytes(p);
    HeaderBytes(p);
    hide PacketBytes, Parse, Flag;
    assert r[4..] == raw[4..] by {
      if adapted {
        RestOf(r, raw, 5, at);
      } else {
        assert r[4..] == p.payload;
      }
    }
    SameHead(r, raw);
  }

  lemma RestOf(r: Raw, raw: Raw, from: nat, at: nat)
    requires 5 == from <= at <= 188 && r[4] == raw[4] && r[from..at] == raw[from..at] && r[at..] == raw[at..]
    ensures r[4..] == raw[4..]
  {
    assert r[4..] == [r[4]] + r[from..at] + r[at..];
    assert raw[4..] == [raw[4]] + raw[from..at] + raw[at..];
  }

  lemma SameHead(r: Raw, raw: Raw)
    requires r[0] == raw[0] && r[1] == raw[1] && r[2] == raw[2] && r[3] == raw[3] && r[4..] == raw[4..]
    ensures r == raw
  {
    assert r == [r[0], r[1], r[2], r[3]] + r[4..];
    assert raw == [raw[0], raw[1], raw[2], raw[3]] + raw[4..];
  }

  lemma ByteOfFlags(b: nat)
    requires b < 256
    ensures b == Flag(b / 128 == 1, 128) + Flag(b / 64 % 2 == 1, 64) + Flag(b / 32 % 2 == 1, 32) + b % 32
  {
  }

  lemma ByteOfControls(b: nat)
    requires b < 256
    ensures b == b / 64 * 64 + Flag(b / 32 % 2 == 1, 32) + Flag(b / 16 % 2 == 1, 16) + b % 16
  {
  }

  // ---------- Sections ----------

  /** A section of at least eight bytes whose length field tells its length. */
  predicate SectionOk(section: seq<byte>)
  {
    |section| >= 8 && N(section[1]) % 16 * 256 + N(section[2]) + 3 == |section|
  }

  /** Where a section starts in a payload: behind a pointer byte and what that skips when a unit starts, else at once. */
  function Framed(start: bool, skipped: seq<byte>, section: seq<byte>, rest: seq<byte>): seq<byte>
    requires |skipped| < 256
  {
    (if start then [|skipped| as byte] + skipped else []) + section + rest
  }

  lemma FramedAt(payload: seq<byte>, start: bool, skipped: seq<byte>, section: seq<byte>, rest: seq<byte>)
    requires |skipped| < 256 && payload == Framed(start, skipped, section, rest)
    requires !start ==> skipped == []
    ensures var at := if start then 1 + |skipped| else 0;
            && at + |section| <= |payload| && payload[at..at + |section|] == section && (start ==> payload[0] == |skipped|)
  {
  }

  lemma SpanIs(pkt: TsPacket, raw: Raw, at: nat, len: nat)
    requires Parse(raw) == Some(pkt) && pkt.hasPayload && pkt.payloadOffset < 188 && len >= 8 && at + len <= 188
    requires at == pkt.payloadOffset + if pkt.payloadUnitStart then 1 + N(raw[pkt.payloadOffset]) else 0
    requires N(raw[at + 1]) % 16 * 256 + N(raw[at + 2]) + 3 == len
    ensures SectionSpan(pkt, raw) == Some((at, len))
  {
    hide Parse;
  }

  lemma IsSpan(pkt: TsPacket, raw: Raw)
    requires Parse(raw) == Some(pkt) && SectionSpan(pkt, raw).Some?
    ensures var (at, len) := SectionSpan(pkt, raw).value;
            && pkt.hasPayload && pkt.payloadOffset < 188 && len >= 8 && at + len <= 188
            && at == pkt.payloadOffset + (if pkt.payloadUnitStart then 1 + N(raw[pkt.payloadOffset]) else 0)
            && N(raw[at + 1]) % 16 * 256 + N(raw[at + 2]) + 3 == len
  {
    hide Parse;
  }

  lemma TailSlice(raw: seq<byte>, off: nat, at: nat, len: nat)
    requires off + at + len <= |raw|
    ensures raw[off..][at..at + len] == raw[off + at..off + at + len]
  {
  }

  lemma Slice3(raw: seq<byte>, at: nat, section: seq<byte>)
    requires |section| >= 3 && at + |section| <= |raw| && raw[at..at + |section|] == section
    ensures raw[at + 1] == section[1] && raw[at + 2] == section[2]
  {
  }

  /** A section written into a payload is found there. */
  lemma SectionFound(pkt: TsPacket, raw: Raw, skipped: seq<byte>, section: seq<byte>, rest: seq<byte>)
    requires Parse(raw) == Some(pkt) && pkt.hasPayload && SectionOk(section) && |skipped| < 256
    requires !pkt.payloadUnitStart ==> skipped == []
    requires raw[pkt.payloadOffset..] == Framed(pkt.payloadUnitStart, skipped, section, rest)
    ensures Section(pkt, raw) == Some(section)
  {
    var payload, off := raw[pkt.payloadOffset..], pkt.payloadOffset;
    FramedAt(payload, pkt.payloadUnitStart, skipped, section, rest);
    hide Parse, Framed, SectionSpan;
    var n := if pkt.payloadUnitStart then 1 + |skipped| else 0;
    TailSlice(raw, off, n, |section|);
    Slice3(raw, off + n, section);
    assert pkt.payloadUnitStart ==> raw[off] == payload[0];
    SpanIs(pkt, raw, off + n, |section|);
  }

  /** Whatever is found was written so. */
  lemma FoundSection(pkt: TsPacket, raw: Raw) returns (skipped: seq<byte>, rest: seq<byte>)
    requires Parse(raw) == Some(pkt) && Section(pkt, raw).Some?
    ensures pkt.hasPayload && SectionOk(Section(pkt, raw).value) && |skipped| < 256 && (!pkt.payloadUnitStart ==> skipped == [])
    ensures raw[pkt.payloadOffset..] == Framed(pkt.payloadUnitStart, skipped, Section(pkt, raw).value, rest)
  {
    IsSpan(pkt, raw);
    var (at, len) := SectionSpan(pkt, raw).value;
    hide Parse, SectionSpan;
    var section, off := raw[at..at + len], pkt.payloadOffset;
    Slice3(raw, at, section);
    skipped, rest := if pkt.payloadUnitStart then raw[off + 1..at] else [], raw[at + len..];
    FramedOf(raw, off, at, len, pkt.payloadUnitStart);
  }

  lemma FramedOf(raw: Raw, off: nat, at: nat, len: nat, start: bool)
    requires off < 188 && at + len <= 188 && at == off + if start then 1 + N(raw[off]) else 0
    ensures raw[off..] == Framed(start, if start then raw[off + 1..at] else [], raw[at..at + len], raw[at + len..])
  {
    var section, rest := raw[at..at + len], raw[at + len..];
    if start {
      assert raw[off..] == [raw[off]] + raw[off + 1..at] + section + rest;
    } else {
      assert raw[off..] == section + rest;
      assert [] + section == section;
    }
  }
}
