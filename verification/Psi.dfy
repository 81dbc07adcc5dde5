// PSI/SI tables (src/psi.c): the PAT and PMT of ISO/IEC 13818-1 section 2.4.4 and the SDT of
// EN 300 468 section 5.2.3, as far as they fit into one packet.
module PsiTables {
  import opened Bytes
  import opened TsPackets
  import opened Crc

  const SDT_PID := 0x11
  const MAX_STREAMS := 32
  const NAME_SIZE := 256

  datatype Stream = Stream(pid: nat, streamType: byte)

  /** Service identity learned from PAT and SDT. */
  datatype Names = Names(serviceId: nat, provider: seq<byte>, service: seq<byte>)

  /** The part of `PsiContext` that decides what happens to packets. */
  datatype Psi = Psi(
    hasPat: bool,
    hasPmt: bool,
    hasSdt: bool,
    primaryPmtPid: nat,
    pcrPid: nat,
    video: seq<Stream>,
    audio: seq<Stream>,
    cachedPat: Option<Raw>,
    cachedPmt: Option<Raw>,
    cachedSdt: Option<Raw>,
    names: Names)

  /** `psi_init`. */
  function InitialPsi(): Psi
  {
    Psi(false, false, false, NULL_PID, NULL_PID, [], [], None, None, None, Names(NULL_PID, [], []))
  }

  predicate Listed(pid: nat, streams: seq<Stream>)
  {
    exists i :: 0 <= i < |streams| && streams[i].pid == pid
  }

  predicate IsPmtPid(psi: Psi, pid: nat)
  {
    psi.primaryPmtPid != NULL_PID && pid == psi.primaryPmtPid
  }

  predicate IsKnownSi(psi: Psi, pid: nat)
  {
    pid == 0 || pid == SDT_PID || IsPmtPid(psi, pid)
  }

  function Read16(s: seq<byte>, at: nat): (r: nat)
    requires at + 1 < |s|
    ensures r < 0x1_0000
  {
    N(s[at]) * 256 + N(s[at + 1])
  }

  /** A 13-bit PID field. */
  function ReadPid(s: seq<byte>, at: nat): (r: nat)
    requires at + 1 < |s|
    ensures r < PID_COUNT
  {
    N(s[at]) % 32 * 256 + N(s[at + 1])
  }

  /** A 12-bit length field. */
  function ReadLength(s: seq<byte>, at: nat): (r: nat)
    requires at + 1 < |s|
    ensures r < 4096
  {
    N(s[at]) % 16 * 256 + N(s[at + 1])
  }

  /** `section_from_payload`: where the section of a packet starts, and how long it says it is. */
  function SectionSpan(pkt: TsPacket, raw: Raw): (r: Option<(nat, nat)>)
    requires Parse(raw) == Some(pkt)
    ensures r.Some? ==> pkt.payloadOffset <= r.value.0 && r.value.1 >= 8 && r.value.0 + r.value.1 <= PACKET_SIZE
  {
    if !pkt.hasPayload || pkt.payloadSize < 1 then None else
    var pointed := pkt.payloadOffset + 1 + N(raw[pkt.payloadOffset]);
    if pkt.payloadUnitStart && pointed >= PACKET_SIZE then None else
    var off := if pkt.payloadUnitStart then pointed else pkt.payloadOffset;
    if off + 3 > PACKET_SIZE then None else
    var len := ReadLength(raw, off + 1) + 3;
    if len < 8 || off + len > PACKET_SIZE then None else Some((off, len))
  }

  function Section(pkt: TsPacket, raw: Raw): (r: Option<seq<byte>>)
    requires Parse(raw) == Some(pkt)
    ensures r.Some? ==> 8 <= |r.value| <= PACKET_SIZE
  {
    match SectionSpan(pkt, raw)
    case None => None
    case Some(span) => Some(raw[span.0..span.0 + span.1])
  }

  predicate SectionChecks(s: seq<byte>)
  {
    Crc32(s) == Zero()
  }

  predicate IsPat(s: seq<byte>)
    requires |s| >= 8
  {
    s[0] == 0 && |s| >= 12 && SectionChecks(s)
  }

  predicate IsSdt(s: seq<byte>)
    requires |s| >= 8
  {
    (s[0] == 0x42 || s[0] == 0x46) && |s| >= 15 && SectionChecks(s)
  }

  predicate IsPmt(s: seq<byte>)
    requires |s| >= 8
  {
    s[0] == 2 && |s| >= 16 && SectionChecks(s)
  }

  /** `psi_packet_has_valid_section`. */
  predicate HasValidSection(psi: Psi, pkt: TsPacket, raw: Raw)
    requires Parse(raw) == Some(pkt)
  {
    match Section(pkt, raw)
    case None => false
    case Some(s) =>
      if pkt.pid == 0 then IsPat(s)
      else if pkt.pid == SDT_PID then IsSdt(s)
      else IsPmtPid(psi, pkt.pid) && IsPmt(s)
  }

  // ---------- PAT ----------

  /** The first program of a PAT that is not the network entry: its number and PMT PID. */
  function FirstProgram(s: seq<byte>, pos: nat): (r: Option<(nat, nat)>)
    requires |s| >= 12
    ensures r.Some? ==> r.value.0 != 0 && r.value.1 < PID_COUNT
    decreases |s| - pos
  {
    if pos + 4 > |s| - 4 then None
    else if Read16(s, pos) != 0 then Some((Read16(s, pos), ReadPid(s, pos + 2)))
    else FirstProgram(s, pos + 4)
  }

  function ParsePat(psi: Psi, raw: Raw, s: seq<byte>): Psi
    requires |s| >= 8
  {
    if !IsPat(s) then psi else
    match FirstProgram(s, 8)
    case None => psi
    case Some(program) =>
      if program.1 == NULL_PID then psi
      else psi.(hasPat := true, primaryPmtPid := program.1, names := psi.names.(serviceId := program.0), cachedPat := Some(raw))
  }

  // ---------- SDT ----------

  /** `copy_dvb_text`: drop one character-table selector, keep printable ASCII, cut to the buffer. */
  function DvbText(src: seq<byte>): (r: seq<byte>)
    ensures |r| < NAME_SIZE
  {
    var text := if src != [] && src[0] in {0x05, 0x10, 0x11, 0x12, 0x15} then src[1..] else src;
    var cut := if |text| < NAME_SIZE then text else text[..NAME_SIZE - 1];
    seq(|cut|, i requires 0 <= i < |cut| => if 0x20 <= cut[i] <= 0x7e then cut[i] else '?' as byte)
  }

  /** Names as one descriptor leaves them; `found` tells whether this SDT has already named a service. */
  function ServiceDescriptor(s: seq<byte>, at: nat, sid: nat, names: Names, found: bool): (r: (Names, bool))
    requires at + 2 <= |s| && at + 2 + N(s[at + 1]) <= |s|
  {
    var d := s[at + 2..at + 2 + N(s[at + 1])];
    if s[at] != 0x48 || |d| < 3 || 3 + N(d[1]) > |d| then (names, found) else
    var serviceAt := 3 + N(d[1]);
    var serviceLen := N(d[serviceAt - 1]);
    if serviceAt + serviceLen <= |d| && (names.serviceId == NULL_PID || names.serviceId == sid || !found)
    then (Names(sid, DvbText(d[2..2 + N(d[1])]), DvbText(d[serviceAt..serviceAt + serviceLen])), true)
    else (names, found)
  }

  /** The descriptor loop of one service; the last component is false when a descriptor overruns it. */
  function Descriptors(s: seq<byte>, dpos: nat, dend: nat, sid: nat, names: Names, found: bool): (r: (Names, bool, bool))
    requires dpos <= dend <= |s|
    decreases dend - dpos
  {
    if dpos + 2 > dend then (names, found, true) else
    var next := dpos + 2 + N(s[dpos + 1]);
    if next > dend then (names, found, false) else
    var (names', found') := ServiceDescriptor(s, dpos, sid, names, found);
    Descriptors(s, next, dend, sid, names', found')
  }

  /** The service loop of an SDT; the last component is false when a length overruns the section. */
  function Services(s: seq<byte>, pos: nat, names: Names, found: bool): (r: (Names, bool))
    requires |s| >= 15
    decreases |s| - pos
  {
    if pos + 5 > |s| - 4 then (names, true) else
    var dpos := pos + 5;
    var dend := dpos + ReadLength(s, pos + 3);
    if dend > |s| - 4 then (names, false) else
    var (names', found', ok) := Descriptors(s, dpos, dend, Read16(s, pos), names, found);
    if !ok then (names', false) else Services(s, dend, names', found')
  }

  /** Names met before a malformed descriptor stay, although the table is then refused. */
  function ParseSdt(psi: Psi, raw: Raw, s: seq<byte>): Psi
    requires |s| >= 8
  {
    if !IsSdt(s) then psi else
    var (names, ok) := Services(s, 11, psi.names, false);
    var named := psi.(names := names);
    if ok then named.(hasSdt := true, cachedSdt := Some(raw)) else named
  }

  // ---------- PMT ----------

  predicate IsVideoType(t: byte)
  {
    t == 0x02 || t == 0x1b || t == 0x24
  }

  predicate IsAudioType(t: byte)
  {
    t == 0x03 || t == 0x04 || t == 0x0f
  }

  /** The elementary streams listed from `pos` on, appended to those already taken. */
  function PmtStreams(s: seq<byte>, pos: nat, video: seq<Stream>, audio: seq<Stream>): (r: (seq<Stream>, seq<Stream>))
    requires |s| >= 16 && |video| <= MAX_STREAMS && |audio| <= MAX_STREAMS
    ensures |r.0| <= MAX_STREAMS && |r.1| <= MAX_STREAMS
    decreases |s| - pos
  {
    if pos + 5 > |s| - 4 then (video, audio) else
    var stream := Stream(ReadPid(s, pos + 1), s[pos]);
    var next := pos + 5 + ReadLength(s, pos + 3);
    if IsVideoType(s[pos]) && |video| < MAX_STREAMS then PmtStreams(s, next, video + [stream], audio)
    else if IsAudioType(s[pos]) && |audio| < MAX_STREAMS then PmtStreams(s, next, video, audio + [stream])
    else PmtStreams(s, next, video, audio)
  }

  function ParsePmt(psi: Psi, raw: Raw, s: seq<byte>): Psi
    requires |s| >= 8
  {
    if !IsPmt(s) then psi else
    var pos := 12 + ReadLength(s, 10);
    if pos > |s| - 4 then psi else
    var (video, audio) := PmtStreams(s, pos, [], []);
    psi.(hasPmt := true, pcrPid := ReadPid(s, 8), video := video, audio := audio, cachedPmt := Some(raw))
  }

  /** `psi_observe_packet`. */
  function Observe(psi: Psi, pkt: TsPacket, raw: Raw): Psi
    requires Parse(raw) == Some(pkt)
  {
    match Section(pkt, raw)
    case None => psi
    case Some(s) =>
      if pkt.pid == 0 then ParsePat(psi, raw, s)
      else if pkt.pid == SDT_PID then ParseSdt(psi, raw, s)
      else if IsPmtPid(psi, pkt.pid) then ParsePmt(psi, raw, s)
      else psi
  }

  // ---------- What the cache holds ----------

  predicate CarriesPat(raw: Raw)
  {
    Parse(raw).Some? && Parse(raw).value.pid == 0 && HasValidSection(InitialPsi(), Parse(raw).value, raw)
  }

  predicate CarriesSdt(raw: Raw)
  {
    Parse(raw).Some? && Parse(raw).value.pid == SDT_PID && HasValidSection(InitialPsi(), Parse(raw).value, raw)
  }

  /** A PMT, on the PID that was the PMT PID when it was cached. */
  predicate CarriesPmt(raw: Raw)
  {
    && Parse(raw).Some?
    && Parse(raw).value.pid !in {0, SDT_PID, NULL_PID}
    && HasValidSection(InitialPsi().(primaryPmtPid := Parse(raw).value.pid), Parse(raw).value, raw)
  }

  /** The invariant of the table cache on every run. */
  predicate CacheValid(psi: Psi)
  {
    && (psi.cachedPat.Some? ==> CarriesPat(psi.cachedPat.value))
    && (psi.cachedPmt.Some? ==> CarriesPmt(psi.cachedPmt.value))
    && (psi.cachedSdt.Some? ==> CarriesSdt(psi.cachedSdt.value))
    && psi.primaryPmtPid < PID_COUNT
  }

  predicate ErrorFree(raw: Raw)
  {
    Parse(raw).Some? && !Parse(raw).value.transportError
  }

  /** No cached packet carries the transport error indicator. */
  predicate CacheErrorFree(psi: Psi)
  {
    && (psi.cachedPat.Some? ==> ErrorFree(psi.cachedPat.value))
    && (psi.cachedPmt.Some? ==> ErrorFree(psi.cachedPmt.value))
    && (psi.cachedSdt.Some? ==> ErrorFree(psi.cachedSdt.value))
  }

  lemma PatEffect(psi: Psi, raw: Raw, s: seq<byte>)
    requires |s| >= 8
    ensures var r := ParsePat(psi, raw, s);
            r != psi ==> IsPat(s) && r.cachedPat == Some(raw) && r.primaryPmtPid < NULL_PID
    ensures var r := ParsePat(psi, raw, s);
            r.cachedPmt == psi.cachedPmt && r.cachedSdt == psi.cachedSdt && r.video == psi.video
  {
  }

  lemma SdtEffect(psi: Psi, raw: Raw, s: seq<byte>)
    requires |s| >= 8
    ensures var r := ParseSdt(psi, raw, s);
            r.cachedSdt != psi.cachedSdt ==> IsSdt(s) && r.cachedSdt == Some(raw)
    ensures var r := ParseSdt(psi, raw, s);
            r.cachedPmt == psi.cachedPmt && r.cachedPat == psi.cachedPat && r.primaryPmtPid == psi.primaryPmtPid
  {
  }

  lemma PmtEffect(psi: Psi, raw: Raw, s: seq<byte>)
    requires |s| >= 8
    ensures var r := ParsePmt(psi, raw, s);
            r.cachedPmt != psi.cachedPmt ==> IsPmt(s) && r.cachedPmt == Some(raw)
    ensures var r := ParsePmt(psi, raw, s);
            r.cachedPat == psi.cachedPat && r.cachedSdt == psi.cachedSdt && r.primaryPmtPid == psi.primaryPmtPid
  {
  }

  /** Each kind of table enters the cache only as a packet of that kind; the other caches stay. */
  lemma ObserveEffect(psi: Psi, pkt: TsPacket, raw: Raw)
    requires Parse(raw) == Some(pkt) && psi.primaryPmtPid < PID_COUNT
    ensures Observe(psi, pkt, raw).primaryPmtPid < PID_COUNT
    ensures Observe(psi, pkt, raw).cachedPat in {psi.cachedPat, Some(raw)}
    ensures Observe(psi, pkt, raw).cachedPmt in {psi.cachedPmt, Some(raw)}
    ensures Observe(psi, pkt, raw).cachedSdt in {psi.cachedSdt, Some(raw)}
    ensures Observe(psi, pkt, raw).cachedPat != psi.cachedPat ==> CarriesPat(raw)
    ensures Observe(psi, pkt, raw).cachedPmt != psi.cachedPmt ==> CarriesPmt(raw)
    ensures Observe(psi, pkt, raw).cachedSdt != psi.cachedSdt ==> CarriesSdt(raw)
  {
    if Section(pkt, raw).Some? {
      var s := Section(pkt, raw).value;
      PatEffect(psi, raw, s);
      SdtEffect(psi, raw, s);
      PmtEffect(psi, raw, s);
    }
  }

  lemma ObserveKeepsCacheValid(psi: Psi, pkt: TsPacket, raw: Raw)
    requires Parse(raw) == Some(pkt) && CacheValid(psi)
    ensures CacheValid(Observe(psi, pkt, raw))
  {
    ObserveEffect(psi, pkt, raw);
  }

  lemma ObserveKeepsCacheErrorFree(psi: Psi, pkt: TsPacket, raw: Raw)
    requires Parse(raw) == Some(pkt) && CacheValid(psi) && CacheErrorFree(psi) && !pkt.transportError
    ensures CacheErrorFree(Observe(psi, pkt, raw))
  {
    ObserveEffect(psi, pkt, raw);
    assert ErrorFree(raw);
  }

  /** Observing a packet moves no PID between the table PIDs and the others, that packet's own included. */
  lemma ObserveKeepsRole(psi: Psi, pkt: TsPacket, raw: Raw)
    requires Parse(raw) == Some(pkt)
    ensures pkt.pid != 0 ==> Observe(psi, pkt, raw).primaryPmtPid == psi.primaryPmtPid
    ensures IsKnownSi(psi, pkt.pid) <==> IsKnownSi(Observe(psi, pkt, raw), pkt.pid)
    ensures HasValidSection(psi, pkt, raw) <==> HasValidSection(Observe(psi, pkt, raw), pkt, raw)
  {
  }

  /** A section survives changes in front of the payload that keep the decoded layout. */
  lemma SectionSurvives(pkt: TsPacket, raw: Raw, pkt': TsPacket, raw': Raw)
    requires Parse(raw) == Some(pkt) && Parse(raw') == Some(pkt')
    requires pkt' == pkt.(continuityCounter := pkt'.continuityCounter, pcrBase := pkt'.pcrBase)
    requires raw[pkt.payloadOffset..] == raw'[pkt.payloadOffset..]
    ensures Section(pkt, raw) == Section(pkt', raw')
  {
    hide Parse;
    var off := pkt.payloadOffset;
    assert forall i :: off <= i < PACKET_SIZE ==> raw[i] == raw[off..][i - off] == raw'[off..][i - off] == raw'[i];
    if SectionSpan(pkt, raw).Some? {
      var span := SectionSpan(pkt, raw).value;
      assert raw[span.0..span.0 + span.1] == raw'[span.0..span.0 + span.1];
    }
  }
}
