// Where the repair library falls short: exactly when, and an input that shows it
// (src/scatterfix.c:314-419, src/psi.c:107-251, src/repair.c:37-111).
module RepairLimits {
  import opened Bytes
  import opened TsPackets
  import opened Crc
  import opened PsiTables
  import opened Statistics
  import opened Framing
  import opened Pipeline
  import opened PipelineSafety
  import opened PipelineClocks
  import opened TablePackets
  import R = RepairRuns
  import S = SdtListings

  // ---------- Which packets enter the cache ----------

  /** The guards of the three table parsers: this packet replaces a cached table. */
  predicate Accepts(psi: Psi, pkt: TsPacket, raw: Raw)
    requires Parse(raw) == Some(pkt)
  {
    match Section(pkt, raw)
    case None => false
    case Some(s) =>
      if pkt.pid == 0 then IsPat(s) && FirstProgram(s, 8).Some? && FirstProgram(s, 8).value.1 != NULL_PID
      else if pkt.pid == SDT_PID then IsSdt(s) && Services(s, 11, psi.names, false).1
      else IsPmtPid(psi, pkt.pid) && IsPmt(s) && 12 + ReadLength(s, 10) <= |s| - 4
  }

  /** A packet is cached exactly when a parser accepts it, and then under its own kind. */
  lemma CachedWhenAccepted(psi: Psi, pkt: TsPacket, raw: Raw)
    requires Parse(raw) == Some(pkt)
    ensures var r := Observe(psi, pkt, raw);
            if !Accepts(psi, pkt, raw)
            then r.cachedPat == psi.cachedPat && r.cachedPmt == psi.cachedPmt && r.cachedSdt == psi.cachedSdt
            else if pkt.pid == 0 then r == psi.(hasPat := true, primaryPmtPid := r.primaryPmtPid, names := r.names, cachedPat := Some(raw))
            else if pkt.pid == SDT_PID then r == psi.(hasSdt := true, names := r.names, cachedSdt := Some(raw))
            else r == psi.(hasPmt := true, pcrPid := r.pcrPid, video := r.video, audio := r.audio, cachedPmt := Some(raw))
  {
    hide Parse, Section, IsPat, IsSdt, IsPmt, FirstProgram, Services, PmtStreams;
  }

  /** Error-marked tables enter a clean cache exactly when a parser accepts them: the parsers never look at the
      error flag. */
  lemma ErrorsCached(psi: Psi, pkt: TsPacket, raw: Raw)
    requires Parse(raw) == Some(pkt) && CacheErrorFree(psi)
    ensures CacheErrorFree(Observe(psi, pkt, raw)) <==> !(pkt.transportError && Accepts(psi, pkt, raw))
  {
    hide Parse, Observe, Accepts;
    CachedWhenAccepted(psi, pkt, raw);
  }

  // ---------- Which PID a replacement comes out on ----------

  /** A packet of this PID would be replaced by a PMT cached on another one: the PAT has moved the PMT since. */
  predicate Moved(psi: Psi, pid: nat)
  {
    && !(pid == 0 && psi.cachedPat.Some?)
    && IsPmtPid(psi, pid)
    && psi.cachedPmt.Some?
    && Parse(psi.cachedPmt.value).Some?
    && Parse(psi.cachedPmt.value).value.pid != pid
  }

  /** A replacement from the cache stays on the PID of the packet it replaces unless the PMT has moved. */
  lemma StandInPid(psi: Psi, pid: nat)
    requires CacheValid(psi) && CachedFor(psi, pid).Some?
    ensures Parse(CachedFor(psi, pid).value).Some?
    ensures Parse(CachedFor(psi, pid).value).value.pid != NULL_PID
    ensures Parse(CachedFor(psi, pid).value).value.pid == pid <==> !Moved(psi, pid)
  {
    hide Parse, HasValidSection;
  }

  /** Damage that makes admission replace a packet. */
  predicate Damaged(cfg: Config, psi: Psi, raw: Raw)
    requires Parse(raw).Some?
  {
    var pkt := Parse(raw).value;
    !cfg.passthrough && (pkt.transportError || (cfg.cleanTs && IsKnownSi(psi, pkt.pid) && !HasValidSection(psi, pkt, raw)))
  }

  lemma ErrorsPid(cfg: Config, psi: Psi, stats: Stats, raw: Raw, pkt: TsPacket)
    requires CacheValid(psi) && Parse(raw) == Some(pkt)
    ensures var r := ScreenErrors(cfg, psi, stats, raw, pkt);
            r.Pass? ==>
              if !cfg.passthrough && pkt.transportError && CachedFor(psi, pkt.pid).Some?
              then r.raw == CachedFor(psi, pkt.pid).value else r.raw == raw
  {
    hide Parse, HasValidSection, CachedFor;
  }

  lemma TablesPid(cfg: Config, psi: Psi, stats: Stats, raw: Raw, pkt: TsPacket)
    requires CacheValid(psi) && Parse(raw) == Some(pkt)
    ensures var r := ScreenTables(cfg, psi, stats, raw, pkt);
            r.Pass? ==>
              if !Cleaning(cfg) || !IsKnownSi(psi, pkt.pid) || HasValidSection(psi, pkt, raw) then r.pkt == pkt
              else if CachedFor(psi, pkt.pid).Some? then r.pkt.pid == Parse(CachedFor(psi, pkt.pid).value).value.pid
              else r.pkt.pid == NULL_PID
  {
    hide Parse, HasValidSection, CachedFor, NullPacket;
    if CachedFor(psi, pkt.pid).Some? {
      StandInPid(psi, pkt.pid);
      ParseWithCc(CachedFor(psi, pkt.pid).value, pkt.continuityCounter);
    }
  }

  /** What passes admission keeps its PID or becomes filler, except exactly for damaged packets on a PMT PID that
      the PAT has moved since a PMT was cached: those come out on the earlier PID. */
  lemma StraysExactly(cfg: Config, psi: Psi, stats: Stats, raw: Raw)
    requires CacheValid(psi) && Parse(raw).Some?
    ensures var r, pid := Admit(cfg, psi, stats, raw), Parse(raw).value.pid;
            r.Pass? ==> (r.pkt.pid !in {pid, NULL_PID} <==> Damaged(cfg, psi, raw) && Moved(psi, pid))
  {
    hide Parse, HasValidSection, CachedFor, NullPacket, ScreenErrors, ScreenTables, CacheValid, Moved;
    var pkt := Parse(raw).value;
    var s := stats.(packetsRead := stats.packetsRead + 1);
    var r := ScreenErrors(cfg, psi, s, raw, pkt);
    ErrorsPid(cfg, psi, s, raw, pkt);
    if CachedFor(psi, pkt.pid).Some? {
      StandInPid(psi, pkt.pid);
      CachedSound(psi, pkt.pid);
    } else {
      NoneMoved(psi, pkt.pid);
    }
    if r.Pass? {
      TablesPid(cfg, psi, r.stats, r.raw, r.pkt);
    }
  }

  /** The old PMT PID still carries something the tables ask for. */
  predicate StillWanted(cfg: Config, psi: Psi, pid: nat)
  {
    !psi.hasPmt || pid == psi.pcrPid || Listed(pid, psi.video) || (!cfg.dropAudio && Listed(pid, psi.audio))
  }

  /** In cleaning mode a packet that strays so is no table to the observers any more, and the PID filter makes it filler
      exactly when nothing else is wanted on the old PMT PID; otherwise it lets the PMT through there. */
  lemma StrayFiltered(cfg: Config, st: State, raw: Raw)
    requires Cleaning(cfg) && CacheValid(st.psi) && Parse(raw).Some?
    requires Damaged(cfg, st.psi, raw) && Moved(st.psi, Parse(raw).value.pid)
    ensures var r := Admit(cfg, st.psi, st.stats, raw);
            && r.Pass?
            && var st1 := Learn(st.(stats := r.stats), r.raw, r.pkt);
              && r.pkt.pid == Parse(st.psi.cachedPmt.value).value.pid
              && st1.psi == st.psi
              && Filter(cfg, st1, r.raw, r.pkt).1 == if StillWanted(cfg, st.psi, r.pkt.pid) then r.raw else NullPacket()
  {
    var pid := Parse(raw).value.pid;
    var pkt := Parse(raw).value;
    var s := st.stats.(packetsRead := st.stats.packetsRead + 1);
    ErrorsPid(cfg, st.psi, s, raw, pkt);
    var e := ScreenErrors(cfg, st.psi, s, raw, pkt);
    CachedSound(st.psi, pid);
    MovedFrom(st.psi, pid);
    ParseWithCc(st.psi.cachedPmt.value, pkt.continuityCounter);
    if e.Pass? {
      TablesPid(cfg, st.psi, e.stats, e.raw, e.pkt);
    }
    hide Parse, HasValidSection, CachedFor, NullPacket, ScreenErrors, ScreenTables, CacheValid, Moved, Section;
  }

  /** What stands in for such a packet, and where it was a PMT. */
  lemma MovedFrom(psi: Psi, pid: nat)
    requires CacheValid(psi) && Moved(psi, pid)
    ensures CachedFor(psi, pid) == psi.cachedPmt
    ensures var from := Parse(psi.cachedPmt.value).value.pid; from !in {0, SDT_PID, NULL_PID, pid} && !IsKnownSi(psi, from)
  {
    hide Parse, HasValidSection;
  }

  lemma NoneMoved(psi: Psi, pid: nat)
    ensures CachedFor(psi, pid).None? ==> !Moved(psi, pid)
  {
    hide Parse;
  }

  // ---------- What a refused SDT leaves ----------

  /** A packet that replaces no cached table changes the names exactly when it carries a checked SDT whose service
      loop breaks off behind a descriptor that had named a service differently. */
  lemma RefusedNames(psi: Psi, pkt: TsPacket, raw: Raw)
    requires Parse(raw) == Some(pkt)
    ensures !Accepts(psi, pkt, raw) && Observe(psi, pkt, raw).names != psi.names <==>
            && pkt.pid == SDT_PID
            && HasValidSection(psi, pkt, raw)
            && var (names, ok) := Services(Section(pkt, raw).value, 11, psi.names, false);
               !ok && names != psi.names
  {
    hide Parse, Section, IsPat, IsSdt, IsPmt, FirstProgram, Services, PmtStreams;
  }

  /** Told from what the section lists: a checked SDT on its PID is refused exactly when its service loop breaks off, and
      then changes the names exactly when a service descriptor in front of the break names something else. */
  lemma BrokenListNames(psi: Psi, pkt: TsPacket, raw: Raw, list: seq<S.Service>, tail: S.Tail)
    requires Parse(raw) == Some(pkt) && pkt.pid == SDT_PID && HasValidSection(psi, pkt, raw)
    requires S.ListsAt(Section(pkt, raw).value, 11, list, tail)
    ensures var namings := S.NamingsOf(list) + S.TailNamings(tail);
            && (Accepts(psi, pkt, raw) <==> tail.Whole?)
            && (!Accepts(psi, pkt, raw) && Observe(psi, pkt, raw).names != psi.names <==>
                  && !tail.Whole?
                  && namings != []
                  && S.Renamed(namings[0], namings[1..]) != psi.names)
  {
    hide Parse, Section, SectionChecks, Services, S.ListsAt, S.NamingsOf, S.TailNamings, S.Renamed;
    var s := Section(pkt, raw).value;
    S.ServicesRead(s, 11, list, tail, psi.names, false);
  }

  // ---------- Runs that show it ----------

  lemma RunOfPackets(cfg: Config, w: World, raws: seq<Raw>)
    requires forall i :: 0 <= i < |raws| ==> raws[i][0] == SYNC_BYTE
    ensures R.Run(cfg, w, [R.Feed(Concat(raws))]).st == ProcessAll(R.Step(cfg, w), InitialState(), raws).0
  {
    hide Process, InitialState, R.InitialCtx;
    R.InitialParts();
    var calls := [R.Feed(Concat(raws))];
    assert calls[..0] == [];
    FeedIsFrame(R.Step(cfg, w), R.InitialCtx(), Concat(raws));
    AlignedStream(raws);
  }

  /** The tables learned from one packet, whatever becomes of it afterwards. */
  lemma ProcessLearns(cfg: Config, w: World, st: State, raw: Raw)
    ensures Process(cfg, w, st, raw).0.psi ==
            match Admit(cfg, st.psi, st.stats, raw)
            case Final(_, _) => st.psi
            case Lost(_) => st.psi
            case Pass(_, raw1, pkt) => Observe(st.psi, pkt, raw1)
  {
    hide Parse, Admit, Observe, NullPacket, Allowed, InjectDue, CachedTables;
    var r := Admit(cfg, st.psi, st.stats, raw);
    if r.Pass? {
      var learned := Learn(st.(stats := r.stats), r.raw, r.pkt);
      var (st2, raw2) := Filter(cfg, learned, r.raw, r.pkt);
      RewriteFrame(cfg, st2, raw2);
      InjectEffect(cfg, w, Rewrite(cfg, st2, raw2).0);
    }
  }

  lemma RunOfOne(cfg: Config, w: World, raw: Raw)
    requires raw[0] == SYNC_BYTE
    ensures R.Run(cfg, w, [R.Feed(raw)]).st == Process(cfg, w, InitialState(), raw).0
  {
    hide Process, InitialState;
    RunOfPackets(cfg, w, [raw]);
    assert Concat([raw]) == raw + Concat([]) == raw;
    var (st, ok) := R.Step(cfg, w)(InitialState(), raw);
    assert ProcessAll(R.Step(cfg, w), st, []) == (st, true);
  }

  lemma InitialTables()
    ensures InitialState().psi == InitialPsi()
  {
  }

  /** With damaged packets left alone, what has no stand-in is admitted as it is. */
  lemma LenientAdmits(cfg: Config, psi: Psi, stats: Stats, raw: Raw, pkt: TsPacket)
    requires !Strict(cfg) && Parse(raw) == Some(pkt) && CachedFor(psi, pkt.pid).None?
    ensures var r := Admit(cfg, psi, stats, raw); r.Pass? && r.raw == raw && r.pkt == pkt
  {
    hide Parse, HasValidSection, CachedFor, NullPacket;
  }

  lemma NothingCached()
    ensures CachedFor(InitialPsi(), 0).None?
  {
  }

  lemma PatAccepted(psi: Psi, program: byte, pmtPid: nat, error: bool)
    requires program != 0 && pmtPid < NULL_PID
    ensures var raw, pkt := TablePacket(0, error, PatSection(program, pmtPid)), Decoded(0, error, PatSection(program, pmtPid));
            && HasValidSection(psi, pkt, raw)
            && Observe(psi, pkt, raw) ==
               psi.(hasPat := true, primaryPmtPid := pmtPid, names := psi.names.(serviceId := N(program)), cachedPat := Some(raw))
  {
    PatSectionReads(program, pmtPid);
    TablePacketSection(0, error, PatSection(program, pmtPid));
    hide Parse, TablePacket, PatSection, Section, IsPat, FirstProgram;
  }

  /** One error-marked PAT, with damaged packets left alone: it is cached, and stands in for others from then on. */
  lemma ErrorsReachCache(cfg: Config, w: World)
    requires !Strict(cfg)
    ensures var raw := TablePacket(0, true, PatSection(1, 0x100));
            var psi := R.Run(cfg, w, [R.Feed(raw)]).st.psi;
            Parse(raw).Some? && Parse(raw).value.transportError && CachedFor(psi, 0) == Some(raw)
  {
    var section := PatSection(1, 0x100);
    var raw := TablePacket(0, true, section);
    var st := InitialState();
    InitialTables();
    NothingCached();
    TablePacketDecodes(0, true, section);
    hide Parse, TablePacket, PatSection, Process, HasValidSection, InitialState, InitialPsi, Admit, Observe, R.Run;
    LenientAdmits(cfg, st.psi, st.stats, raw, Decoded(0, true, section));
    PatAccepted(st.psi, 1, 0x100, true);
    ProcessLearns(cfg, w, st, raw);
    RunOfOne(cfg, w, raw);
  }

  /** The cache is free of error-marked packets on every run exactly when damaged packets are replaced. */
  lemma CacheCleanExactlyWhenStrict(cfg: Config, w: World)
    ensures (forall calls: seq<R.Call> :: CacheErrorFree(R.Run(cfg, w, calls).st.psi)) <==> Strict(cfg)
  {
    hide R.Run, Parse, TablePacket, PatSection;
    if Strict(cfg) {
      forall calls: seq<R.Call> ensures CacheErrorFree(R.Run(cfg, w, calls).st.psi) {
        R.RunSafe(cfg, w, calls);
      }
    } else {
      ErrorsReachCache(cfg, w);
      var calls := [R.Feed(TablePacket(0, true, PatSection(1, 0x100)))];
      assert !CacheErrorFree(R.Run(cfg, w, calls).st.psi);
    }
  }

  /** In every mode: an SDT that breaks off names the service, yet no SDT is known or cached. */
  lemma BrokenSdtNames(cfg: Config, w: World)
    ensures var psi := R.Run(cfg, w, [R.Feed(TablePacket(SDT_PID, false, SdtSection()))]).st.psi;
            psi.names == NAMED && !psi.hasSdt && psi.cachedSdt.None?
  {
    hide Parse, TablePacket, SdtSection, Process, InitialState, Admit, Observe, HasValidSection, InitialPsi, R.Run;
    var raw := TablePacket(SDT_PID, false, SdtSection());
    var st := InitialState();
    InitialTables();
    TablePacketDecodes(SDT_PID, false, SdtSection());
    BrokenSdtObserved(InitialPsi());
    SoundAdmits(cfg, st.psi, st.stats, raw, Decoded(SDT_PID, false, SdtSection()));
    ProcessLearns(cfg, w, st, raw);
    RunOfOne(cfg, w, raw);
    NoSdtYet();
  }

  lemma NoSdtYet()
    ensures !InitialPsi().hasSdt && InitialPsi().cachedSdt.None?
  {
  }

  lemma BrokenSdtObserved(psi: Psi)
    ensures var raw, pkt := TablePacket(SDT_PID, false, SdtSection()), Decoded(SDT_PID, false, SdtSection());
            HasValidSection(psi, pkt, raw) && Observe(psi, pkt, raw) == psi.(names := NAMED)
  {
    SdtSectionChecks();
    SdtSectionNames(psi.names);
    TablePacketSection(SDT_PID, false, SdtSection());
    hide Parse, TablePacket, SdtSection, Section, IsSdt, Services;
  }

  /** A sound packet without the error mark is admitted as it is in every mode. */
  lemma SoundAdmits(cfg: Config, psi: Psi, stats: Stats, raw: Raw, pkt: TsPacket)
    requires Parse(raw) == Some(pkt) && !pkt.transportError && HasValidSection(psi, pkt, raw)
    ensures var r := Admit(cfg, psi, stats, raw); r.Pass? && r.raw == raw && r.pkt == pkt
  {
    hide Parse, HasValidSection, CachedFor, NullPacket;
  }

  // ---------- A PMT on an earlier PID ----------

  /** A PAT with the PMT on PID 0x100, the PMT, a PAT that moves it to 0x200, and a damaged packet there. */
  function MovedInput(): (raws: seq<Raw>)
    ensures |raws| == 4
  {
    [TablePacket(0, false, PatSection(1, 0x100)), TablePacket(0x100, false, PmtSection(NULL_PID)),
     TablePacket(0, false, PatSection(1, 0x200)), TablePacket(0x200, true, [])]
  }

  /** Nothing but error-marked packets is replaced, nothing injected or rewritten. */
  predicate Bare(cfg: Config)
  {
    !cfg.passthrough && !cfg.cleanTs && cfg.psiIntervalMs == 0 && !cfg.dryRun
  }

  /** In these modes a packet is written as admission leaves it, under the tables it leaves. */
  lemma BareStep(cfg: Config, w: World, st: State, raw: Raw)
    requires Bare(cfg) && R.AcceptsAll(cfg, w) && Admit(cfg, st.psi, st.stats, raw).Pass?
    ensures var r := Admit(cfg, st.psi, st.stats, raw);
            var (st', ok) := Process(cfg, w, st, raw);
            ok && st'.psi == Observe(st.psi, r.pkt, r.raw) && st'.log == st.log + [Entry(r.raw, false, st'.psi, st'.stats.packetsRead)]
  {
    hide Parse, Admit, Observe, NullPacket;
  }

  /** A sound packet that is not marked is admitted as it is. */
  lemma BareAdmits(cfg: Config, psi: Psi, stats: Stats, raw: Raw, pkt: TsPacket)
    requires Bare(cfg) && Parse(raw) == Some(pkt)
    ensures var r := Admit(cfg, psi, stats, raw);
            && (!pkt.transportError ==> r.Pass? && r.raw == raw && r.pkt == pkt)
            && (pkt.transportError && CachedFor(psi, pkt.pid).Some? && Parse(CachedFor(psi, pkt.pid).value).Some? ==>
                  r.Pass? && r.raw == CachedFor(psi, pkt.pid).value && Parse(r.raw) == Some(r.pkt))
  {
    hide Parse, NullPacket, HasValidSection;
  }

  lemma PmtAccepted(psi: Psi, pid: nat, pcrPid: nat)
    requires pid < PID_COUNT && pcrPid < PID_COUNT && pid !in {0, SDT_PID} && IsPmtPid(psi, pid)
    ensures var raw, pkt := TablePacket(pid, false, PmtSection(pcrPid)), Decoded(pid, false, PmtSection(pcrPid));
            Observe(psi, pkt, raw).cachedPmt == Some(raw) && Observe(psi, pkt, raw).primaryPmtPid == psi.primaryPmtPid
  {
    PmtSectionReads(pcrPid);
    TablePacketSection(pid, false, PmtSection(pcrPid));
    hide Parse, TablePacket, PmtSection, Section, IsPmt;
  }

  /** One packet of the run: admitted as it is. */
  lemma BarePacket(cfg: Config, w: World, st: State, pid: nat, section: seq<byte>)
    requires Bare(cfg) && R.AcceptsAll(cfg, w) && pid < PID_COUNT && |section| <= PACKET_SIZE - 5
    ensures var raw := TablePacket(pid, false, section);
            var (st', ok) := Process(cfg, w, st, raw);
            ok && st'.psi == Observe(st.psi, Decoded(pid, false, section), raw) && st'.log == st.log + [Entry(raw, false, st'.psi, st'.stats.packetsRead)]
  {
    hide Parse, TablePacket, Process, Admit, Observe;
    var raw, pkt := TablePacket(pid, false, section), Decoded(pid, false, section);
    BareAdmits(cfg, st.psi, st.stats, raw, pkt);
    BareStep(cfg, w, st, raw);
  }

  /** One packet of the run: replaced by the cached PMT. */
  lemma BareReplaced(cfg: Config, w: World, st: State, pid: nat, cached: Raw)
    requires Bare(cfg) && R.AcceptsAll(cfg, w) && 0 < pid < PID_COUNT
    requires IsPmtPid(st.psi, pid) && st.psi.cachedPmt == Some(cached)
    requires Parse(cached).Some? && !IsKnownSi(st.psi, Parse(cached).value.pid)
    ensures var (st', ok) := Process(cfg, w, st, TablePacket(pid, true, []));
            ok && st'.psi == st.psi && st'.log == st.log + [Entry(cached, false, st.psi, st'.stats.packetsRead)]
  {
    var raw, pkt := TablePacket(pid, true, []), Decoded(pid, true, []);
    hide Parse, TablePacket, Process, Admit;
    BareAdmits(cfg, st.psi, st.stats, raw, pkt);
    BareStep(cfg, w, st, raw);
  }

  lemma FourSteps(cfg: Config, w: World, st: State, raws: seq<Raw>)
    requires |raws| == 4
    requires Process(cfg, w, st, raws[0]).1
    requires Process(cfg, w, Process(cfg, w, st, raws[0]).0, raws[1]).1
    requires Process(cfg, w, Process(cfg, w, Process(cfg, w, st, raws[0]).0, raws[1]).0, raws[2]).1
    ensures ProcessAll(R.Step(cfg, w), st, raws).0 ==
            Process(cfg, w, Process(cfg, w, Process(cfg, w, Process(cfg, w, st, raws[0]).0, raws[1]).0, raws[2]).0, raws[3]).0
  {
    hide Process;
    var step := R.Step(cfg, w);
    var st1 := Process(cfg, w, st, raws[0]).0;
    var st2 := Process(cfg, w, st1, raws[1]).0;
    var st3 := Process(cfg, w, st2, raws[2]).0;
    assert raws[1..][1..] == raws[2..] && raws[2..][1..] == raws[3..] && raws[3..][1..] == [];
    assert ProcessAll(step, st3, raws[3..]).0 == Process(cfg, w, st3, raws[3]).0;
    assert ProcessAll(step, st2, raws[2..]) == ProcessAll(step, st3, raws[3..]);
    assert ProcessAll(step, st1, raws[1..]) == ProcessAll(step, st2, raws[2..]);
  }

  /** What one packet of the run adds to the output and does to the tables that matter. */
  predicate Leaves(r: (State, bool), st: State, out: Raw, pmtPid: nat, cachedPmt: Option<Raw>)
  {
    r.1 && Raws(r.0.log) == Raws(st.log) + [out] && r.0.psi.primaryPmtPid == pmtPid && r.0.psi.cachedPmt == cachedPmt
  }

  lemma PatStep(cfg: Config, w: World, st: State, pmtPid: nat)
    requires Bare(cfg) && R.AcceptsAll(cfg, w) && pmtPid < NULL_PID
    ensures var raw := TablePacket(0, false, PatSection(1, pmtPid));
            Leaves(Process(cfg, w, st, raw), st, raw, pmtPid, st.psi.cachedPmt)
  {
    hide Parse, TablePacket, PatSection, Process, Observe;
    BarePacket(cfg, w, st, 0, PatSection(1, pmtPid));
    PatAccepted(st.psi, 1, pmtPid, false);
  }

  lemma PmtStep(cfg: Config, w: World, st: State, pid: nat)
    requires Bare(cfg) && R.AcceptsAll(cfg, w) && pid < NULL_PID && pid !in {0, SDT_PID} && st.psi.primaryPmtPid == pid
    ensures var raw := TablePacket(pid, false, PmtSection(NULL_PID));
            Leaves(Process(cfg, w, st, raw), st, raw, pid, Some(raw))
  {
    hide Parse, TablePacket, PmtSection, Process, Observe;
    BarePacket(cfg, w, st, pid, PmtSection(NULL_PID));
    PmtAccepted(st.psi, pid, NULL_PID);
  }

  lemma StrayStep(cfg: Config, w: World, st: State, pid: nat, cached: Raw, from: nat)
    requires Bare(cfg) && R.AcceptsAll(cfg, w) && 0 < pid < NULL_PID
    requires st.psi.primaryPmtPid == pid && st.psi.cachedPmt == Some(cached)
    requires Parse(cached).Some? && Parse(cached).value.pid == from && from !in {0, SDT_PID, pid}
    ensures Leaves(Process(cfg, w, st, TablePacket(pid, true, [])), st, cached, pid, Some(cached))
  {
    hide Parse, TablePacket, Process;
    BareReplaced(cfg, w, st, pid, cached);
  }

  lemma MovedSteps(cfg: Config, w: World, st: State, raws: seq<Raw>)
    requires Bare(cfg) && R.AcceptsAll(cfg, w) && |raws| == 4
    requires raws[0] == TablePacket(0, false, PatSection(1, 0x100)) && raws[1] == TablePacket(0x100, false, PmtSection(NULL_PID))
    requires raws[2] == TablePacket(0, false, PatSection(1, 0x200)) && raws[3] == TablePacket(0x200, true, [])
    requires Parse(raws[1]).Some? && Parse(raws[1]).value.pid == 0x100
    ensures var st' := ProcessAll(R.Step(cfg, w), st, raws).0;
            Raws(st'.log) == Raws(st.log) + [raws[0]] + [raws[1]] + [raws[2]] + [raws[1]] && st'.psi.primaryPmtPid == 0x200
  {
    hide Parse, TablePacket, PatSection, PmtSection, Process, Raws, ProcessAll;
    var st1 := Process(cfg, w, st, raws[0]).0;
    PatStep(cfg, w, st, 0x100);
    var st2 := Process(cfg, w, st1, raws[1]).0;
    PmtStep(cfg, w, st1, 0x100);
    var st3 := Process(cfg, w, st2, raws[2]).0;
    PatStep(cfg, w, st2, 0x200);
    StrayStep(cfg, w, st3, 0x200, raws[1], 0x100);
    FourSteps(cfg, w, st, raws);
  }

  lemma MovedDecodes()
    ensures var raws := MovedInput();
            && (forall i :: 0 <= i < 4 ==> raws[i][0] == SYNC_BYTE)
            && Parse(raws[1]).Some? && Parse(raws[1]).value.pid == 0x100
  {
    hide Parse, TablePacket, PatSection, PmtSection;
    TablePacketDecodes(0, false, PatSection(1, 0x100));
    TablePacketDecodes(0x100, false, PmtSection(NULL_PID));
    TablePacketDecodes(0, false, PatSection(1, 0x200));
    TablePacketDecodes(0x200, true, []);
  }

  /** The damaged packet on PID 0x200 comes out as the PMT on PID 0x100, where the tables no longer place one. */
  lemma MovedPmtStrays(cfg: Config, w: World)
    requires Bare(cfg) && R.AcceptsAll(cfg, w)
    ensures var raws := MovedInput();
            var st := R.Run(cfg, w, [R.Feed(Concat(raws))]).st;
            && Raws(st.log) == raws[..3] + [raws[1]]
            && Parse(raws[1]).Some? && Parse(raws[1]).value.pid == 0x100 && !IsKnownSi(st.psi, 0x100)
  {
    hide TablePacket, PatSection, PmtSection, InitialState, Raws, R.Run, ProcessAll, Concat, Parse, Process;
    var raws := MovedInput();
    MovedDecodes();
    MovedSteps(cfg, w, InitialState(), raws);
    RunOfPackets(cfg, w, raws);
    NothingYet();
    assert [] + [raws[0]] + [raws[1]] + [raws[2]] + [raws[1]] == raws[..3] + [raws[1]];
  }

  lemma NothingYet()
    ensures Raws(InitialState().log) == []
  {
    hide InitialState;
  }
}
