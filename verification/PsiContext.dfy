// The table state as the program updates it: `PsiContext` and its parsers (src/psi.c).
module PsiContexts {
  import opened Bytes
  import opened TsPackets
  import opened Crc
  import T = PsiTables

  class PsiContext {
    var hasPat: bool
    var hasPmt: bool
    var hasSdt: bool
    var primaryPmtPid: nat
    var pcrPid: nat
    var video: seq<T.Stream>
    var audio: seq<T.Stream>
    var cachedPat: Option<Raw>
    var cachedPmt: Option<Raw>
    var cachedSdt: Option<Raw>
    var serviceId: nat
    var provider: seq<byte>
    var service: seq<byte>

    ghost function View(): T.Psi
      reads this
    {
      T.Psi(hasPat, hasPmt, hasSdt, primaryPmtPid, pcrPid, video, audio, cachedPat, cachedPmt, cachedSdt, NamesView())
    }

    ghost function NamesView(): T.Names
      reads this
    {
      T.Names(serviceId, provider, service)
    }

    constructor ()
      ensures View() == T.InitialPsi()
    {
      hasPat, hasPmt, hasSdt := false, false, false;
      primaryPmtPid, pcrPid, serviceId := NULL_PID, NULL_PID, NULL_PID;
      video, audio, provider, service := [], [], [], [];
      cachedPat, cachedPmt, cachedSdt := None, None, None;
    }

    /** `psi_init`. */
    method Init()
      modifies this
      ensures View() == T.InitialPsi()
    {
      hasPat, hasPmt, hasSdt := false, false, false;
      primaryPmtPid, pcrPid, serviceId := NULL_PID, NULL_PID, NULL_PID;
      video, audio, provider, service := [], [], [], [];
      cachedPat, cachedPmt, cachedSdt := None, None, None;
    }

    /** `psi_pid_is_pmt`. */
    predicate IsPmtPid(pid: nat)
      reads this
      ensures IsPmtPid(pid) == T.IsPmtPid(View(), pid)
    {
      primaryPmtPid != NULL_PID && pid == primaryPmtPid
    }

    /** `psi_pid_is_known_si`. */
    predicate IsKnownSi(pid: nat)
      reads this
      ensures IsKnownSi(pid) == T.IsKnownSi(View(), pid)
    {
      pid == 0 || pid == T.SDT_PID || IsPmtPid(pid)
    }

    /** `psi_packet_has_valid_section`. */
    method HasValidSection(pkt: TsPacket, raw: Raw) returns (valid: bool)
      requires Parse(raw) == Some(pkt)
      ensures valid == T.HasValidSection(View(), pkt, raw)
    {
      var section := T.Section(pkt, raw);
      if section.None? {
        return false;
      }
      var s := section.value;
      var crc := MpegCrc32(s);
      if crc != Zero() {
        return false;
      }
      if pkt.pid == 0 {
        return s[0] == 0 && |s| >= 12;
      }
      if pkt.pid == T.SDT_PID {
        return (s[0] == 0x42 || s[0] == 0x46) && |s| >= 15;
      }
      return IsPmtPid(pkt.pid) && s[0] == 2 && |s| >= 16;
    }

    method ParsePat(raw: Raw, s: seq<byte>)
      requires |s| >= 8
      modifies this
      ensures View() == T.ParsePat(old(View()), raw, s)
    {
      hide Crc32;
      if s[0] != 0 || |s| < 12 {
        return;
      }
      var crc := MpegCrc32(s);
      if crc != Zero() {
        return;
      }
      var bestPmt, bestService := NULL_PID, NULL_PID;
      var pos := 8;
      while pos + 4 <= |s| - 4
        invariant 8 <= pos
        invariant T.FirstProgram(s, 8) == T.FirstProgram(s, pos)
        invariant bestPmt == NULL_PID
      {
        var program := T.Read16(s, pos);
        if program != 0 {
          bestService := program;
          bestPmt := T.ReadPid(s, pos + 2);
          break;
        }
        pos := pos + 4;
      }
      if bestPmt == NULL_PID {
        return;
      }
      hasPat := true;
      primaryPmtPid := bestPmt;
      serviceId := bestService;
      cachedPat := Some(raw);
    }

    /** One descriptor of the SDT loop. */
    method TakeDescriptor(s: seq<byte>, at: nat, sid: nat, found: bool) returns (found': bool)
      requires at + 2 <= |s| && at + 2 + N(s[at + 1]) <= |s|
      modifies this`serviceId, this`provider, this`service
      ensures (NamesView(), found') == T.ServiceDescriptor(s, at, sid, old(NamesView()), found)
    {
      hide T.DvbText;
      found' := found;
      var d := s[at + 2..at + 2 + N(s[at + 1])];
      if s[at] == 0x48 && |d| >= 3 {
        var providerLen := N(d[1]);
        if 2 + providerLen + 1 <= |d| {
          var serviceLen := N(d[2 + providerLen]);
          if 3 + providerLen + serviceLen <= |d| && (serviceId == NULL_PID || serviceId == sid || !found) {
            serviceId := sid;
            provider := T.DvbText(d[2..2 + providerLen]);
            service := T.DvbText(d[3 + providerLen..3 + providerLen + serviceLen]);
            found' := true;
          }
        }
      }
    }

    /** The descriptor loop of one service; it breaks off when a descriptor overruns it. */
    method TakeDescriptors(s: seq<byte>, start: nat, dend: nat, sid: nat, found: bool) returns (found': bool, ok: bool)
      requires start <= dend <= |s|
      modifies this`serviceId, this`provider, this`service
      ensures (NamesView(), found', ok) == T.Descriptors(s, start, dend, sid, old(NamesView()), found)
    {
      hide T.ServiceDescriptor;
      var dpos := start;
      found' := found;
      while dpos + 2 <= dend
        invariant start <= dpos <= dend
        invariant T.Descriptors(s, start, dend, sid, old(NamesView()), found) == T.Descriptors(s, dpos, dend, sid, NamesView(), found')
        decreases dend - dpos
      {
        if dpos + 2 + N(s[dpos + 1]) > dend {
          return found', false;
        }
        found' := TakeDescriptor(s, dpos, sid, found');
        dpos := dpos + 2 + N(s[dpos + 1]);
      }
      ok := true;
    }

    method ParseSdt(raw: Raw, s: seq<byte>)
      requires |s| >= 8
      modifies this
      ensures View() == T.ParseSdt(old(View()), raw, s)
    {
      hide T.Descriptors, Crc32;
      if (s[0] != 0x42 && s[0] != 0x46) || |s| < 15 {
        return;
      }
      var crc := MpegCrc32(s);
      if crc != Zero() {
        return;
      }
      var pos, found := 11, false;
      while pos + 5 <= |s| - 4
        invariant View() == old(View()).(names := NamesView())
        invariant T.Services(s, 11, old(NamesView()), false) == T.Services(s, pos, NamesView(), found)
        decreases |s| - pos
      {
        var dend := pos + 5 + T.ReadLength(s, pos + 3);
        if dend > |s| - 4 {
          return;
        }
        var ok;
        found, ok := TakeDescriptors(s, pos + 5, dend, T.Read16(s, pos), found);
        if !ok {
          return;
        }
        pos := dend;
      }
      hasSdt := true;
      cachedSdt := Some(raw);
    }

    /** The elementary stream loop of the PMT. */
    method TakeStreams(s: seq<byte>, start: nat)
      requires |s| >= 16
      modifies this`video, this`audio
      ensures (video, audio) == T.PmtStreams(s, start, [], [])
    {
      video, audio := [], [];
      var pos := start;
      while pos + 5 <= |s| - 4
        invariant |video| <= T.MAX_STREAMS && |audio| <= T.MAX_STREAMS
        invariant T.PmtStreams(s, start, [], []) == T.PmtStreams(s, pos, video, audio)
        decreases |s| - pos
      {
        var streamType := s[pos];
        var stream := T.Stream(T.ReadPid(s, pos + 1), streamType);
        var infoLen := T.ReadLength(s, pos + 3);
        if T.IsVideoType(streamType) && |video| < T.MAX_STREAMS {
          video := video + [stream];
        } else if T.IsAudioType(streamType) && |audio| < T.MAX_STREAMS {
          audio := audio + [stream];
        }
        pos := pos + 5 + infoLen;
      }
    }

    method ParsePmt(raw: Raw, s: seq<byte>)
      requires |s| >= 8
      modifies this
      ensures View() == T.ParsePmt(old(View()), raw, s)
    {
      hide T.PmtStreams, Crc32;
      if s[0] != 2 || |s| < 16 {
        return;
      }
      var crc := MpegCrc32(s);
      if crc != Zero() {
        return;
      }
      var pos := 12 + T.ReadLength(s, 10);
      if pos > |s| - 4 {
        return;
      }
      pcrPid := T.ReadPid(s, 8);
      TakeStreams(s, pos);
      hasPmt := true;
      cachedPmt := Some(raw);
    }

    /** `psi_observe_packet`. */
    method Observe(pkt: TsPacket, raw: Raw)
      requires Parse(raw) == Some(pkt)
      modifies this
      ensures View() == T.Observe(old(View()), pkt, raw)
    {
      var section := T.Section(pkt, raw);
      if section.None? {
        return;
      }
      if pkt.pid == 0 {
        ParsePat(raw, section.value);
      } else if pkt.pid == T.SDT_PID {
        ParseSdt(raw, section.value);
      } else if IsPmtPid(pkt.pid) {
        ParsePmt(raw, section.value);
      }
    }
  }
}
