// Sections and the packets that carry them, built byte by byte: the inputs of the lemmas in RepairLimits.
module TablePackets {
  import opened Bytes
  import opened TsPackets
  import opened Crc
  import opened PsiTables

  /** A packet that opens with `section`: no adaptation field, pointer zero, 0xff behind. */
  function TablePacket(pid: nat, error: bool, section: seq<byte>): (raw: Raw)
    requires pid < PID_COUNT && |section| <= PACKET_SIZE - 5
  {
    [SYNC_BYTE, ((if error then 128 else 0) + 64 + pid / 256) as byte, pid % 256, 0x10, 0] + section
    + seq(PACKET_SIZE - 5 - |section|, _ => 0xff)
  }

  /** The length field tells the length of the section. */
  predicate Sized(section: seq<byte>)
  {
    8 <= |section| <= PACKET_SIZE - 5 && ReadLength(section, 1) + 3 == |section|
  }

  lemma TablePacketDecodes(pid: nat, error: bool, section: seq<byte>)
    requires pid < PID_COUNT && |section| <= PACKET_SIZE - 5
    ensures var raw := TablePacket(pid, error, section);
            && raw[0] == SYNC_BYTE
            && Parse(raw) == Some(TsPacket(pid, error, true, false, 0, 1, 0, false, true, false, false, 0, 4, PACKET_SIZE - 4))
  {
    var raw := TablePacket(pid, error, section);
    assert raw[..5] == [SYNC_BYTE, ((if error then 128 else 0) + 64 + pid / 256) as byte, pid % 256, 0x10, 0];
    assert raw[0] == SYNC_BYTE && raw[3] == 0x10;
    assert raw[1] == (if error then 128 else 0) + 64 + pid / 256 && raw[2] == pid % 256;
  }

  /** The packet of a table, decoded. */
  function Decoded(pid: nat, error: bool, section: seq<byte>): (pkt: TsPacket)
    requires pid < PID_COUNT && |section| <= PACKET_SIZE - 5
    ensures Parse(TablePacket(pid, error, section)) == Some(pkt)
    ensures pkt.pid == pid && pkt.transportError == error
  {
    TablePacketDecodes(pid, error, section);
    TsPacket(pid, error, true, false, 0, 1, 0, false, true, false, false, 0, 4, PACKET_SIZE - 4)
  }

  lemma SectionBytes(pid: nat, error: bool, section: seq<byte>)
    requires pid < PID_COUNT && |section| <= PACKET_SIZE - 5
    ensures TablePacket(pid, error, section)[4] == 0
    ensures TablePacket(pid, error, section)[5..5 + |section|] == section
  {
  }

  lemma TablePacketSection(pid: nat, error: bool, section: seq<byte>)
    requires pid < PID_COUNT && Sized(section)
    ensures Section(Decoded(pid, error, section), TablePacket(pid, error, section)) == Some(section)
  {
    hide Parse, TablePacket;
    var raw := TablePacket(pid, error, section);
    SectionBytes(pid, error, section);
    assert raw[6] == raw[5..5 + |section|][1] && raw[7] == raw[5..5 + |section|][2];
    assert SectionSpan(Decoded(pid, error, section), raw) == Some((5, |section|));
  }

  // ---------- Three small tables ----------

  function PatBody(program: byte, pmtPid: nat): (s: seq<byte>)
    requires pmtPid < PID_COUNT
    ensures |s| == 12
  {
    [0, 0xb0, 13, 0, 1, 0xc1, 0, 0, 0, program, (0xe0 + pmtPid / 256) as byte, pmtPid % 256]
  }

  /** A PAT that names one program and its PMT PID. */
  function PatSection(program: byte, pmtPid: nat): (s: seq<byte>)
    requires pmtPid < PID_COUNT
    ensures |s| == 16 && s[..12] == PatBody(program, pmtPid)
  {
    Seal(PatBody(program, pmtPid))
  }

  lemma PatSectionReads(program: byte, pmtPid: nat)
    requires program != 0 && pmtPid < PID_COUNT
    ensures var s := PatSection(program, pmtPid);
            Sized(s) && IsPat(s) && FirstProgram(s, 8) == Some((N(program), pmtPid))
  {
    hide Seal, Crc32;
    SealedChecks(PatBody(program, pmtPid));
    var s := PatSection(program, pmtPid);
    assert forall i :: 0 <= i < 12 ==> s[i] == s[..12][i];
    assert Read16(s, 8) == N(program);
    assert ReadPid(s, 10) == pmtPid;
  }

  function PmtBody(pcrPid: nat): (s: seq<byte>)
    requires pcrPid < PID_COUNT
    ensures |s| == 12
  {
    [2, 0xb0, 13, 0, 1, 0xc1, 0, 0, (0xe0 + pcrPid / 256) as byte, pcrPid % 256, 0xf0, 0]
  }

  /** A PMT without streams, whose clock reference comes on `pcrPid`. */
  function PmtSection(pcrPid: nat): (s: seq<byte>)
    requires pcrPid < PID_COUNT
    ensures |s| == 16 && s[..12] == PmtBody(pcrPid)
  {
    Seal(PmtBody(pcrPid))
  }

  lemma PmtSectionReads(pcrPid: nat)
    requires pcrPid < PID_COUNT
    ensures var s := PmtSection(pcrPid);
            Sized(s) && IsPmt(s) && 12 + ReadLength(s, 10) <= |s| - 4
  {
    hide Seal, Crc32;
    SealedChecks(PmtBody(pcrPid));
    var s := PmtSection(pcrPid);
    assert forall i :: 0 <= i < 12 ==> s[i] == s[..12][i];
  }

  /** An SDT that names service 1 with provider "A" and service "B", and then announces more descriptors for
      service 2 than it holds. */
  function SdtBody(): (s: seq<byte>)
    ensures |s| == 28
  {
    [0x42, 0xf0, 29, 0, 1, 0xc1, 0, 0, 0, 1, 0xff] + [0, 1, 0xfc, 0x80, 7, 0x48, 5, 1, 1, 0x41, 1, 0x42]
    + [0, 2, 0xfc, 0x80, 100]
  }

  function SdtSection(): (s: seq<byte>)
    ensures |s| == 32 && s[..28] == SdtBody()
  {
    Seal(SdtBody())
  }

  predicate StartsAsSdt(s: seq<byte>)
  {
    && |s| == 32
    && s[0] == 0x42 && s[1] == 0xf0 && s[2] == 29
    && s[11] == 0 && s[12] == 1 && s[14] == 0x80 && s[15] == 7
    && s[16] == 0x48 && s[17] == 5
    && s[18] == 1 && s[19] == 1 && s[20] == 0x41 && s[21] == 1 && s[22] == 0x42
    && s[26] == 0x80 && s[27] == 100
  }

  lemma SdtSectionBytes()
    ensures StartsAsSdt(SdtSection())
  {
    hide Seal;
    var s := SdtSection();
    assert forall i :: 0 <= i < 28 ==> s[i] == s[..28][i];
  }

  lemma SdtSectionChecks()
    ensures Sized(SdtSection()) && IsSdt(SdtSection())
  {
    hide Crc32, Seal;
    SdtSectionBytes();
    SealedChecks(SdtBody());
    assert SdtSection() == Seal(SdtBody());
  }

  const NAMED := Names(1, [0x41], [0x42])

  lemma Named(s: seq<byte>, names: Names)
    requires StartsAsSdt(s)
    ensures ServiceDescriptor(s, 16, 1, names, false) == (NAMED, true)
  {
    var d := s[18..23];
    assert d == [1, 1, 0x41, 1, 0x42];
    assert d[2..3] == [0x41] && d[4..5] == [0x42];
    assert DvbText([0x41]) == [0x41] && DvbText([0x42]) == [0x42];
  }

  lemma SdtSectionNames(names: Names)
    ensures Services(SdtSection(), 11, names, false) == (NAMED, false)
  {
    hide SdtSection, ServiceDescriptor;
    SdtSectionBytes();
    var s := SdtSection();
    Named(s, names);
    assert Descriptors(s, 23, 23, 1, NAMED, true) == (NAMED, true, true);
    assert Descriptors(s, 16, 23, 1, names, false) == (NAMED, true, true);
    assert Services(s, 23, NAMED, true) == (NAMED, false);
  }
}
