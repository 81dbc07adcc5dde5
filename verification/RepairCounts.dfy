// What the statistics count, told from the packet, the tables known and the output so far
// (src/scatterfix.c:31-276, 315-419, src/repair.c:37-72).
module RepairCounts {
  import opened Bytes
  import opened TsPackets
  import opened PsiTables
  import opened Statistics
  import opened Timestamps
  import opened Continuity
  import opened Framing
  import opened Pipeline
  import opened PipelineSafety
  import opened PipelineClocks
  import opened SmoothingEffects
  import F = RepairFates
  import R = RepairRuns

  function One(b: bool): nat
  {
    if b then 1 else 0
  }

  // ---------- What there is to count ----------

  predicate Marked(cfg: Config, raw: Raw)
  {
    Parse(raw).Some? && Parse(raw).value.transportError && !cfg.passthrough
  }

  /** An undamaged packet of a table PID without a sound table, where that matters. */
  predicate BadTable(cfg: Config, psi: Psi, raw: Raw)
  {
    && Parse(raw).Some? && !Parse(raw).value.transportError
    && cfg.cleanTs && !cfg.passthrough
    && F.IsTablePid(psi, Parse(raw).value.pid) && !HasValidSection(psi, Parse(raw).value, raw)
  }

  predicate HasStandIn(psi: Psi, raw: Raw)
  {
    Parse(raw).Some? && F.StandIn(psi, Parse(raw).value.pid).Some?
  }

  /** What admission counts, `unwanted` telling whether the PID filter took the packet afterwards. */
  predicate AdmissionCounted(cfg: Config, psi: Psi, raw: Raw, unwanted: bool, s: Stats, r: Stats)
  {
    && r.packetsRead == s.packetsRead + 1
    && r.packetsDropped == s.packetsDropped
    && r.invalidPackets == s.invalidPackets + One(Parse(raw).None?)
    && r.transportErrorPackets == s.transportErrorPackets + One(Marked(cfg, raw))
    && r.psiCacheRepairs == s.psiCacheRepairs + One(Marked(cfg, raw) && HasStandIn(psi, raw))
    && r.unrepairableTransportErrors == s.unrepairableTransportErrors + One(Marked(cfg, raw) && !HasStandIn(psi, raw))
    && r.cleanTsPsiCacheRepairs == s.cleanTsPsiCacheRepairs + One(BadTable(cfg, psi, raw) && HasStandIn(psi, raw))
    && r.cleanTsBadPsiNulls == s.cleanTsBadPsiNulls + One(BadTable(cfg, psi, raw) && !HasStandIn(psi, raw))
    && r.cleanTsFilteredPids == s.cleanTsFilteredPids + One(unwanted)
    && r.cleanTsNullPackets == s.cleanTsNullPackets
                               + One(cfg.cleanTs && !cfg.passthrough
                                     && (Parse(raw).None? || (Marked(cfg, raw) && !HasStandIn(psi, raw))))
                               + One(BadTable(cfg, psi, raw) && !HasStandIn(psi, raw))
                               + One(unwanted)
  }

  predicate SameTotals(s: Stats, r: Stats)
  {
    && r.continuityErrors == s.continuityErrors && r.duplicates == s.duplicates
    && r.outOfOrder == s.outOfOrder && r.missingPackets == s.missingPackets
  }

  predicate SameRewrites(s: Stats, r: Stats)
  {
    && r.cleanTsMediaCcRewrites == s.cleanTsMediaCcRewrites
    && r.cleanTsPcrRewrites == s.cleanTsPcrRewrites && r.cleanTsPtsRewrites == s.cleanTsPtsRewrites
  }

  /** The counter of the video packet changes. */
  predicate Recount(cfg: Config, psi: Psi, own: seq<Entry>, pkt: TsPacket)
    requires pkt.continuityCounter < 16
  {
    && cfg.smoothVideoCc && pkt.hasPayload && Listed(pkt.pid, psi.video)
    && F.VideoCounter(own, pkt.pid, pkt.continuityCounter) !=
       if F.IsTablePid(psi, pkt.pid) then F.TableCounter(own, pkt.pid) else pkt.continuityCounter
  }

  /** Its clock reference is out of place. */
  predicate Reclock(cfg: Config, psi: Psi, own: seq<Entry>, pkt: TsPacket, raw: Raw)
    requires Layout(pkt)
  {
    && cfg.smoothTimestamps && Listed(pkt.pid, psi.video)
    && CarriesPcr(pkt, raw) && !InPlaceAfter(Trail(Items(own), Pcr), pkt.pcrBase)
  }

  /** Its presentation time is out of place. */
  predicate Restamp(cfg: Config, psi: Psi, own: seq<Entry>, pkt: TsPacket, raw: Raw)
    requires Layout(pkt)
  {
    && cfg.smoothTimestamps && Listed(pkt.pid, psi.video)
    && OpensPes(pkt, raw) && !InPlaceAfter(Trail(Items(own), Pts), ReadPts33(raw, pkt.payloadOffset + 9))
  }

  /** What the rewriters count. */
  predicate Rewritten(cfg: Config, psi: Psi, own: seq<Entry>, pkt: TsPacket, raw: Raw, s: Stats, r: Stats)
    requires Layout(pkt) && pkt.continuityCounter < 16
  {
    && r.cleanTsMediaCcRewrites == s.cleanTsMediaCcRewrites + One(Recount(cfg, psi, own, pkt))
    && r.cleanTsPcrRewrites == s.cleanTsPcrRewrites + One(Reclock(cfg, psi, own, pkt, raw))
    && r.cleanTsPtsRewrites == s.cleanTsPtsRewrites + One(Restamp(cfg, psi, own, pkt, raw))
  }

  // ---------- Admission ----------

  lemma ErrorCounts(cfg: Config, psi: Psi, s: Stats, raw: Raw, pkt: TsPacket)
    requires Parse(raw) == Some(pkt) && CacheValid(psi)
    ensures var r := ScreenErrors(cfg, psi, s, raw, pkt);
            var fill := Marked(cfg, raw) && !HasStandIn(psi, raw) && (cfg.sanitize || cfg.cleanTs);
            && !r.Lost?
            && (r.Final? <==> fill)
            && r.stats == s.(
                 transportErrorPackets := s.transportErrorPackets + One(Marked(cfg, raw)),
                 psiCacheRepairs := s.psiCacheRepairs + One(Marked(cfg, raw) && HasStandIn(psi, raw)),
                 unrepairableTransportErrors := s.unrepairableTransportErrors + One(Marked(cfg, raw) && !HasStandIn(psi, raw)),
                 cleanTsNullPackets := s.cleanTsNullPackets + One(fill && cfg.cleanTs),
                 repairActions := r.stats.repairActions)
  {
    F.SameStandIn(psi, pkt.pid);
    F.ErrorScreen(cfg, psi, s, raw, pkt);
    hide Parse, CachedFor, F.StandIn, CacheValid, HasValidSection, NullPacket;
  }

  lemma TableCounts(cfg: Config, psi: Psi, s: Stats, raw: Raw, pkt: TsPacket)
    requires Parse(raw) == Some(pkt) && CacheValid(psi)
    ensures var r := ScreenTables(cfg, psi, s, raw, pkt);
            var bad := Cleaning(cfg) && F.IsTablePid(psi, pkt.pid) && !HasValidSection(psi, pkt, raw);
            && r.Pass?
            && r.stats == s.(
                 cleanTsPsiCacheRepairs := s.cleanTsPsiCacheRepairs + One(bad && F.StandIn(psi, pkt.pid).Some?),
                 cleanTsBadPsiNulls := s.cleanTsBadPsiNulls + One(bad && F.StandIn(psi, pkt.pid).None?),
                 cleanTsNullPackets := s.cleanTsNullPackets + One(bad && F.StandIn(psi, pkt.pid).None?),
                 repairActions := r.stats.repairActions)
  {
    F.SameStandIn(psi, pkt.pid);
    F.TableScreen(cfg, psi, s, raw, pkt);
    hide Parse, CachedFor, F.StandIn, F.IsTablePid, IsKnownSi, CacheValid, HasValidSection, NullPacket, WithCc;
  }

  lemma AdmitCounts(cfg: Config, psi: Psi, s: Stats, raw: Raw)
    requires CacheValid(psi) && (Strict(cfg) ==> CacheErrorFree(psi))
    ensures var r := Admit(cfg, psi, s, raw).stats;
            AdmissionCounted(cfg, psi, raw, false, s, r) && SameTotals(s, r) && SameRewrites(s, r)
  {
    hide Parse, HasValidSection, NullPacket, CacheErrorFree, CachedFor, F.StandIn, ScreenTables, ScreenErrors, IsKnownSi,
         F.IsTablePid, CacheValid;
    if Parse(raw).Some? {
      var pkt := Parse(raw).value;
      var s1 := s.(packetsRead := s.packetsRead + 1);
      ErrorCounts(cfg, psi, s1, raw, pkt);
      F.ErrorScreen(cfg, psi, s1, raw, pkt);
      var r := ScreenErrors(cfg, psi, s1, raw, pkt);
      if r.Pass? {
        TableCounts(cfg, psi, r.stats, r.raw, r.pkt);
        if Marked(cfg, raw) && HasStandIn(psi, raw) {
          F.CachedPasses(cfg, psi, pkt.pid);
        }
      }
    }
  }

  // ---------- Observers and filter ----------

  /** What observing counts, whatever else has been counted. */
  lemma ObserveTotals(watch: CcWatch, pkt: TsPacket, s: Stats, t: Stats)
    requires pkt.pid < PID_COUNT && pkt.continuityCounter < 16 && SameTotals(s, t)
    ensures var (w1, s1) := ObserveCc(watch, pkt, s);
            var (w2, t1) := ObserveCc(watch, pkt, t);
            && w1 == w2 && SameTotals(s1, t1)
            && t1 == t.(continuityErrors := t1.continuityErrors, duplicates := t1.duplicates, outOfOrder := t1.outOfOrder,
                        missingPackets := t1.missingPackets)
  {
  }

  lemma FilterCounts(cfg: Config, st: State, raw: Raw, pkt: TsPacket)
    ensures var unwanted := Cleaning(cfg) && !F.Wanted(cfg, st.psi, pkt.pid);
            var (st', raw') := Filter(cfg, st, raw, pkt);
            && raw' == (if unwanted then NullPacket() else raw)
            && st' == st.(stats := st.stats.(
                 cleanTsNullPackets := st.stats.cleanTsNullPackets + One(unwanted),
                 cleanTsFilteredPids := st.stats.cleanTsFilteredPids + One(unwanted),
                 repairActions := st'.stats.repairActions))
  {
    F.SameWanted(cfg, st.psi, pkt.pid);
    hide NullPacket, F.Wanted, Allowed;
  }

  // ---------- Rewriters ----------

  lemma RewriteStats(cfg: Config, st: State, raw: Raw)
    requires Cleaning(cfg) && Parse(raw).Some?
    ensures var pkt := Parse(raw).value;
            var raw1 := RewritePsiCc(st.psi, pkt, raw, st.psiCc).1;
            var changed := cfg.smoothVideoCc && RewriteVideoCc(st.psi, pkt, raw1, st.videoCc).2;
            var sm := Smooth(st.psi.video, pkt, Recounted(cfg, st, raw), st.time);
            var s, r := st.stats, Rewrite(cfg, st, raw).0.stats;
            r == s.(cleanTsMediaCcRewrites := s.cleanTsMediaCcRewrites + One(changed),
                    cleanTsPcrRewrites := s.cleanTsPcrRewrites + One(cfg.smoothTimestamps && sm.pcrRewritten),
                    cleanTsPtsRewrites := s.cleanTsPtsRewrites + One(cfg.smoothTimestamps && sm.ptsRewritten),
                    repairActions := r.repairActions)
  {
    hide Parse, RewritePsiCc, RewriteVideoCc, Smooth;
  }

  /** The counter of a video packet is counted as rewritten exactly when it changes. */
  lemma RecountCounted(cfg: Config, st: State, raw: Raw)
    requires Cleaning(cfg) && Parse(raw).Some? && F.RecordsTell(cfg, st)
    requires Parse(raw).value.pid == 0x1fff ==> !Listed(0x1fff, st.psi.video)
    ensures var pkt := Parse(raw).value;
            var raw1 := RewritePsiCc(st.psi, pkt, raw, st.psiCc).1;
            Recount(cfg, st.psi, Own(st.log), pkt) <==> cfg.smoothVideoCc && RewriteVideoCc(st.psi, pkt, raw1, st.videoCc).2
  {
    var pkt := Parse(raw).value;
    if cfg.smoothVideoCc && pkt.pid < 0x1fff {
      assert F.RecordTells(cfg, st, pkt.pid);
      F.CountersTold(cfg, st, pkt.pid, pkt.continuityCounter);
      F.SameStandIn(st.psi, pkt.pid);
      CounterOf(raw, pkt, F.TableCounter(Own(st.log), pkt.pid));
    }
    hide Parse, Listed, F.IsTablePid, IsKnownSi, Own, F.VideoCounter, F.TableCounter, WithCc, F.RecordsTell, F.RecordTells, NextCc;
  }

  lemma CounterOf(raw: Raw, pkt: TsPacket, cc: nat)
    requires Parse(raw) == Some(pkt) && cc < 16
    ensures N(raw[3]) % 16 == pkt.continuityCounter && N(WithCc(raw, cc)[3]) % 16 == cc
  {
  }

  /** Stamps are counted as rewritten exactly when they are out of place. */
  lemma StampsCounted(video: seq<Stream>, pkt: TsPacket, raw: Raw, st: TimeState, pts: seq<nat>, pcr: seq<nat>)
    requires Parse(raw) == Some(pkt) && Remembers(st, Pts, pts) && Remembers(st, Pcr, pcr)
    ensures var sm := Smooth(video, pkt, raw, st);
            && (sm.pcrRewritten <==> Listed(pkt.pid, video) && CarriesPcr(pkt, raw) && !InPlaceAfter(pcr, pkt.pcrBase))
            && (sm.ptsRewritten <==> Listed(pkt.pid, video) && OpensPes(pkt, raw)
                                     && !InPlaceAfter(pts, ReadPts33(raw, pkt.payloadOffset + 9)))
  {
    hide Parse, Listed, SmoothPcr, SmoothPts, OutOfPlace, InPlaceAfter, ReadPts33, OpensPes, CarriesPcr, Remembers;
    if Listed(pkt.pid, video) {
      ClockCounted(pkt, raw, st, pcr);
      StampCounted(pkt, raw, st, pts);
    }
  }

  lemma ClockCounted(pkt: TsPacket, raw: Raw, st: TimeState, pcr: seq<nat>)
    requires Remembers(st, Pcr, pcr) && Layout(pkt)
    ensures SmoothPcr(pkt, raw, st).2 <==> CarriesPcr(pkt, raw) && !InPlaceAfter(pcr, pkt.pcrBase)
  {
    SitesAgree(pkt, raw);
    OutOfPlaceAfter(st, Pcr, pcr, pkt.pcrBase);
    PcrFlag(pkt, raw, st);
    hide SmoothPcr, OutOfPlace, InPlaceAfter, CarriesPcr, HasPcrSite;
  }

  lemma StampCounted(pkt: TsPacket, raw: Raw, st: TimeState, pts: seq<nat>)
    requires Parse(raw) == Some(pkt) && Remembers(st, Pts, pts)
    ensures var (st1, raw1, _) := SmoothPcr(pkt, raw, st);
            SmoothPts(pkt, raw1, st1).2 <==> OpensPes(pkt, raw) && !InPlaceAfter(pts, ReadPts33(raw, pkt.payloadOffset + 9))
  {
    var (st1, raw1, _) := SmoothPcr(pkt, raw, st);
    SamePes(pkt, raw, st);
    SitesAgree(pkt, raw1);
    SameTimes(pkt, raw, st);
    PtsFlag(pkt, raw1, st1);
    if OpensPes(pkt, raw) {
      OutOfPlaceAfter(st, Pts, pts, ReadPts33(raw, pkt.payloadOffset + 9));
    }
    hide Parse, SmoothPcr, SmoothPts, OutOfPlace, InPlaceAfter, ReadPts33, OpensPes, PtsSite, CarriesPcr, HasPcrSite, CarriesDts;
  }

  lemma SamePes(pkt: TsPacket, raw: Raw, st: TimeState)
    requires Parse(raw) == Some(pkt)
    ensures var raw1 := SmoothPcr(pkt, raw, st).1;
            && OpensPes(pkt, raw1) == OpensPes(pkt, raw)
            && (OpensPes(pkt, raw) ==> ReadPts33(raw1, pkt.payloadOffset + 9) == ReadPts33(raw, pkt.payloadOffset + 9))
  {
    PcrHalf(pkt, raw, st);
    hide Parse, SmoothPcr, OutOfPlace, CarriesPcr, ReadPcrBase;
    var raw1 := SmoothPcr(pkt, raw, st).1;
    if raw1 != raw {
      SitesBehindPcr(pkt, raw, raw1);
    }
    hide OpensPes, ReadPts33;
  }

  lemma PcrFlag(pkt: TsPacket, raw: Raw, st: TimeState)
    ensures SmoothPcr(pkt, raw, st).2 <==> HasPcrSite(pkt, raw) && OutOfPlace(st.pcrValid, pkt.pcrBase, st.nextPcr)
  {
    hide HasPcrSite, OutOfPlace, WritePcr;
  }

  lemma PtsFlag(pkt: TsPacket, raw: Raw, st: TimeState)
    requires Layout(pkt)
    ensures SmoothPts(pkt, raw, st).2 <==>
            PtsSite(pkt, raw).Some? && OutOfPlace(st.ptsValid, ReadPts33(raw, PtsSite(pkt, raw).value), st.nextPts)
  {
    hide PtsSite, OutOfPlace, WritePts33, SmoothDts, ReadPts33;
  }

  /** Another counter changes nothing of this. */
  lemma StampsIgnoreCc(cfg: Config, psi: Psi, own: seq<Entry>, pkt: TsPacket, pkt2: TsPacket, raw: Raw, raw2: Raw)
    requires Layout(pkt) && pkt2 == pkt.(continuityCounter := pkt2.continuityCounter)
    requires (forall i :: 0 <= i < PACKET_SIZE && i != 3 ==> raw2[i] == raw[i]) && N(raw2[3]) / 16 == N(raw[3]) / 16
    ensures Reclock(cfg, psi, own, pkt2, raw2) <==> Reclock(cfg, psi, own, pkt, raw)
    ensures Restamp(cfg, psi, own, pkt2, raw2) <==> Restamp(cfg, psi, own, pkt, raw)
  {
    hide InPlaceAfter, Trail, Items, Listed;
    assert OpensPes(pkt2, raw2) <==> OpensPes(pkt, raw);
    assert CarriesPcr(pkt2, raw2) <==> CarriesPcr(pkt, raw);
    if OpensPes(pkt, raw) {
      assert ReadPts33(raw2, pkt.payloadOffset + 9) == ReadPts33(raw, pkt.payloadOffset + 9);
    }
    hide ReadPts33;
  }

  lemma RecountedBytes(cfg: Config, st: State, raw: Raw)
    requires Parse(raw).Some?
    ensures var raw2 := Recounted(cfg, st, raw);
            (forall i :: 0 <= i < PACKET_SIZE && i != 3 ==> raw2[i] == raw[i]) && N(raw2[3]) / 16 == N(raw[3]) / 16
  {
    hide Parse, IsKnownSi, Listed, NextCc;
  }

  lemma RewriteCounts(cfg: Config, st: State, raw: Raw)
    requires Cleaning(cfg) && Parse(raw).Some? && F.Told(cfg, st)
    requires Parse(raw).value.pid == 0x1fff ==> !Listed(0x1fff, st.psi.video)
    ensures var s, r := st.stats, Rewrite(cfg, st, raw).0.stats;
            && Rewritten(cfg, st.psi, Own(st.log), Parse(raw).value, raw, s, r)
            && r == s.(cleanTsMediaCcRewrites := r.cleanTsMediaCcRewrites, cleanTsPcrRewrites := r.cleanTsPcrRewrites,
                       cleanTsPtsRewrites := r.cleanTsPtsRewrites, repairActions := r.repairActions)
  {
    hide Parse, Recounted, Rewrite, Recount, Reclock, Restamp, Smooth, Listed, Own, F.RecordsTell, RewritePsiCc, RewriteVideoCc, TimeInStep;
    RewriteStats(cfg, st, raw);
    RecountCounted(cfg, st, raw);
    if cfg.smoothTimestamps {
      StampsReported(cfg, st, raw);
    }
    NotReported(cfg, st.psi, Own(st.log), Parse(raw).value, raw);
  }

  lemma NotReported(cfg: Config, psi: Psi, own: seq<Entry>, pkt: TsPacket, raw: Raw)
    requires Layout(pkt)
    ensures Reclock(cfg, psi, own, pkt, raw) || Restamp(cfg, psi, own, pkt, raw) ==> cfg.smoothTimestamps
  {
  }

  /** The smoother's flags, told from the stamps that went out. */
  lemma StampsReported(cfg: Config, st: State, raw: Raw)
    requires Parse(raw).Some? && cfg.smoothTimestamps && TimeInStep(st)
    ensures var sm := Smooth(st.psi.video, Parse(raw).value, Recounted(cfg, st, raw), st.time);
            && (sm.pcrRewritten <==> Reclock(cfg, st.psi, Own(st.log), Parse(raw).value, raw))
            && (sm.ptsRewritten <==> Restamp(cfg, st.psi, Own(st.log), Parse(raw).value, raw))
  {
    var pkt, raw2 := Parse(raw).value, Recounted(cfg, st, raw);
    RecountedBytes(cfg, st, raw);
    F.CountedRole(cfg, st, raw);
    var pkt2 := Parse(raw2).value;
    hide Parse, Recounted, Smooth, Listed, Own, Trail, Items, Remembers, InPlaceAfter, ReadPts33, OpensPes, CarriesPcr, TimeInStep;
    F.TimesTold(st);
    SmoothReadsLayout(st.psi.video, pkt, pkt2, raw2, st.time);
    StampsCounted(st.psi.video, pkt2, raw2, st.time, Trail(Items(Own(st.log)), Pts), Trail(Items(Own(st.log)), Pcr));
    StampsIgnoreCc(cfg, st.psi, Own(st.log), pkt, pkt2, raw, raw2);
  }

  // ---------- Delivery ----------

  /** Delivery counts what it writes and nothing else. */
  predicate OnlyWrites(s: Stats, r: Stats)
  {
    r == s.(packetsWritten := r.packetsWritten, psiInjections := r.psiInjections, repairActions := r.repairActions)
  }

  lemma {:induction false} TablesCount(cfg: Config, w: World, st: State, tables: seq<Raw>)
    ensures OnlyWrites(st.stats, WriteTables(cfg, w, st, tables).0.stats)
    decreases |tables|
  {
    if tables != [] {
      TablesCount(cfg, w, Write(cfg, w, st, tables[0], true).0, tables[1..]);
    }
  }

  lemma DeliverCounts(cfg: Config, w: World, st: State, raw: Raw)
    ensures OnlyWrites(st.stats, Deliver(cfg, w, st, raw).0.stats) && Deliver(cfg, w, st, raw).0.watch == st.watch
  {
    hide WriteTables, CachedTables, InjectDue;
    TablesCount(cfg, w, st, CachedTables(st.psi));
    TablesWatch(cfg, w, st, CachedTables(st.psi));
  }

  lemma {:induction false} TablesWatch(cfg: Config, w: World, st: State, tables: seq<Raw>)
    ensures WriteTables(cfg, w, st, tables).0.watch == st.watch
    decreases |tables|
  {
    if tables != [] {
      TablesWatch(cfg, w, Write(cfg, w, st, tables[0], true).0, tables[1..]);
    }
  }

  // ---------- One packet ----------

  /** The PID filter takes the packet passed on. */
  predicate Unwanted(cfg: Config, psi: Psi, e: F.Entrance)
  {
    e.PassedOn? && Parse(e.raw).Some? && cfg.cleanTs && !cfg.passthrough && !F.Wanted(cfg, psi, Parse(e.raw).value.pid)
  }

  /** What the continuity checker reports is about the packets passed on. */
  predicate Checks(before: State, after: State, e: F.Entrance)
  {
    if e.PassedOn? && Parse(e.raw).Some? then
      var (watch, s) := ObserveCc(before.watch, Parse(e.raw).value, before.stats);
      after.watch == watch && SameTotals(s, after.stats)
    else after.watch == before.watch && SameTotals(before.stats, after.stats)
  }

  /** What the rewriters report is about the packets they get. */
  predicate Reports(cfg: Config, before: State, after: State, e: F.Entrance)
  {
    if e.PassedOn? && Parse(e.raw).Some? && cfg.cleanTs && !cfg.passthrough && F.Wanted(cfg, after.psi, Parse(e.raw).value.pid)
    then Rewritten(cfg, after.psi, Own(before.log), Parse(e.raw).value, e.raw, before.stats, after.stats)
    else SameRewrites(before.stats, after.stats)
  }

  predicate SameAdmission(s: Stats, r: Stats)
  {
    && r.packetsRead == s.packetsRead && r.packetsDropped == s.packetsDropped && r.invalidPackets == s.invalidPackets
    && r.transportErrorPackets == s.transportErrorPackets && r.psiCacheRepairs == s.psiCacheRepairs
    && r.unrepairableTransportErrors == s.unrepairableTransportErrors
    && r.cleanTsPsiCacheRepairs == s.cleanTsPsiCacheRepairs && r.cleanTsBadPsiNulls == s.cleanTsBadPsiNulls
  }

  lemma LearnCounts(st: State, raw: Raw, pkt: TsPacket)
    requires Parse(raw) == Some(pkt)
    ensures var (watch, stats) := ObserveCc(st.watch, pkt, st.stats);
            var r := Learn(st, raw, pkt);
            && r.watch == watch && r.stats == stats && r.log == st.log && r.psi == Observe(st.psi, pkt, raw)
  {
    hide Parse, Observe, ObserveCc;
  }

  lemma RewriteWatch(cfg: Config, st: State, raw: Raw)
    ensures Rewrite(cfg, st, raw).0.watch == st.watch
  {
    hide Parse, RewritePsiCc, RewriteVideoCc, Smooth;
  }

  lemma NullParses()
    ensures Parse(NullPacket()).Some? && Parse(NullPacket()).value.pid == 0x1fff
  {
  }

  lemma NullReports(cfg: Config, psi: Psi, own: seq<Entry>, s: Stats, r: Stats)
    requires !Listed(0x1fff, psi.video)
    requires Parse(NullPacket()).Some? && Rewritten(cfg, psi, own, Parse(NullPacket()).value, NullPacket(), s, r)
    ensures SameRewrites(s, r)
  {
    NullParses();
    hide Parse, Listed, NullPacket;
  }

  lemma FilteredCounts(cfg: Config, st: State, raw: Raw, pkt: TsPacket, stats: Stats)
    requires Parse(raw) == Some(pkt) && (Cleaning(cfg) ==> F.Told(cfg, st))
    requires SameTotals(st.stats, stats) && SameRewrites(st.stats, stats)
    requires !Listed(0x1fff, Observe(st.psi, pkt, raw).video)
    ensures var (st2, raw2) := Filter(cfg, Learn(st.(stats := stats), raw, pkt), raw, pkt);
            var r := Rewrite(cfg, st2, raw2).0;
            var e := F.PassedOn(raw);
            && r.psi == Observe(st.psi, pkt, raw)
            && Checks(st, r, e) && Reports(cfg, st, r, e)
            && var n := One(Unwanted(cfg, r.psi, e));
               && r.stats.cleanTsFilteredPids == stats.cleanTsFilteredPids + n
               && r.stats.cleanTsNullPackets == stats.cleanTsNullPackets + n
               && SameAdmission(stats, r.stats)
  {
    F.FrameOfLearn(cfg, st, raw, pkt, stats);
    if Cleaning(cfg) {
      F.StillTold(cfg, st, raw, pkt, stats);
    }
    ObserveTotals(st.watch, pkt, st.stats, stats);
    LearnCounts(st.(stats := stats), raw, pkt);
    NullParses();
    hide Parse, Learn, Observe, ObserveCc, F.Told, Listed, F.Wanted, NullPacket, Own, Rewrite, Rewritten, Filter;
    var learned := Learn(st.(stats := stats), raw, pkt);
    FilterCounts(cfg, learned, raw, pkt);
    var (st2, raw2) := Filter(cfg, learned, raw, pkt);
    RewriteFrame(cfg, st2, raw2);
    RewriteWatch(cfg, st2, raw2);
    var r := Rewrite(cfg, st2, raw2).0;
    if !Cleaning(cfg) {
      F.LeftAlone(cfg, st2, raw2);
    } else {
      RewriteCounts(cfg, st2, raw2);
      if F.Wanted(cfg, learned.psi, pkt.pid) {
        RewrittenFrom(cfg, r.psi, Own(st.log), pkt, raw, st2.stats, st.stats, r.stats);
      } else {
        NullReports(cfg, st2.psi, Own(st2.log), st2.stats, r.stats);
      }
    }
  }

  lemma RewrittenFrom(cfg: Config, psi: Psi, own: seq<Entry>, pkt: TsPacket, raw: Raw, s: Stats, s0: Stats, r: Stats)
    requires Layout(pkt) && pkt.continuityCounter < 16 && SameRewrites(s0, s) && Rewritten(cfg, psi, own, pkt, raw, s, r)
    ensures Rewritten(cfg, psi, own, pkt, raw, s0, r)
  {
    hide Recount, Reclock, Restamp;
  }

  /** One packet, whatever the callback answers: every counter but those of what is written. */
  lemma ProcessCounts(cfg: Config, w: World, st: State, raw: Raw) returns (e: F.Entrance)
    requires Inv(cfg, st) && !cfg.dryRun && (Cleaning(cfg) ==> F.Told(cfg, st))
    ensures F.AdmittedAs(cfg, st.psi, raw, e)
    ensures var r := Process(cfg, w, st, raw).0;
            !Listed(0x1fff, r.psi.video) ==>
              && AdmissionCounted(cfg, st.psi, raw, Unwanted(cfg, r.psi, e), st.stats, r.stats)
              && Checks(st, r, e) && Reports(cfg, st, r, e)
  {
    F.AdmitsExactly(cfg, st.psi, st.stats, raw);
    AdmitCounts(cfg, st.psi, st.stats, raw);
    var a := Admit(cfg, st.psi, st.stats, raw);
    e := F.EntranceOf(a);
    hide Parse, Admit, F.AdmittedAs, Learn, Filter, Rewrite, Deliver, F.Told, Listed, Inv, Observe, F.Wanted, Own, AdmissionCounted,
         ObserveCc, Rewritten, SameAdmission, Checks, Reports, SameTotals, SameRewrites, Unwanted, Write;
    if a.Pass? {
      PassedCounts(cfg, w, st, raw, a);
    } else {
      WrittenCounts(cfg, w, st, raw, a.stats, a.raw);
    }
  }

  /** A packet passed on. */
  lemma PassedCounts(cfg: Config, w: World, st: State, raw: Raw, a: Admitted)
    requires a.Pass? && Parse(a.raw) == Some(a.pkt) && (Cleaning(cfg) ==> F.Told(cfg, st))
    requires AdmissionCounted(cfg, st.psi, raw, false, st.stats, a.stats) && SameTotals(st.stats, a.stats) && SameRewrites(st.stats, a.stats)
    ensures var (st2, raw2) := Filter(cfg, Learn(st.(stats := a.stats), a.raw, a.pkt), a.raw, a.pkt);
            var (st3, raw3) := Rewrite(cfg, st2, raw2);
            var r := Deliver(cfg, w, st3, raw3).0;
            var e := F.PassedOn(a.raw);
            !Listed(0x1fff, r.psi.video) ==>
              && AdmissionCounted(cfg, st.psi, raw, Unwanted(cfg, r.psi, e), st.stats, r.stats)
              && Checks(st, r, e) && Reports(cfg, st, r, e)
  {
    hide Parse, Learn, Filter, Rewrite, Deliver, F.Told, Listed, Observe, Own, AdmissionCounted, Checks, Reports, SameTotals, SameRewrites, Unwanted;
    var (st2, raw2) := Filter(cfg, Learn(st.(stats := a.stats), a.raw, a.pkt), a.raw, a.pkt);
    var (st3, raw3) := Rewrite(cfg, st2, raw2);
    var r := Deliver(cfg, w, st3, raw3).0;
    var e := F.PassedOn(a.raw);
    F.FrameOfLearn(cfg, st, a.raw, a.pkt, a.stats);
    RewriteFrame(cfg, st2, raw2);
    DeliverCounts(cfg, w, st3, raw3);
    F.DeliveredPsi(cfg, w, st3, raw3);
    if !Listed(0x1fff, st3.psi.video) {
      FilteredCounts(cfg, st, a.raw, a.pkt, a.stats);
      DeliveredReports(cfg, st, st3, r, e);
      AdmittedThen(cfg, st.psi, raw, Unwanted(cfg, r.psi, e), st.stats, a.stats, r.stats);
    }
  }

  lemma AdmittedThen(cfg: Config, psi: Psi, raw: Raw, unwanted: bool, s: Stats, a: Stats, r: Stats)
    requires AdmissionCounted(cfg, psi, raw, false, s, a) && SameAdmission(a, r)
    requires r.cleanTsFilteredPids == a.cleanTsFilteredPids + One(unwanted)
    requires r.cleanTsNullPackets == a.cleanTsNullPackets + One(unwanted)
    ensures AdmissionCounted(cfg, psi, raw, unwanted, s, r)
  {
    hide Parse, Marked, BadTable, HasStandIn;
  }

  /** A packet written at once. */
  lemma WrittenCounts(cfg: Config, w: World, st: State, raw: Raw, stats: Stats, out: Raw)
    requires AdmissionCounted(cfg, st.psi, raw, false, st.stats, stats) && SameTotals(st.stats, stats) && SameRewrites(st.stats, stats)
    ensures var r := Write(cfg, w, st.(stats := stats), out, false).0;
            var e := F.WrittenAtOnce(out);
            && AdmissionCounted(cfg, st.psi, raw, Unwanted(cfg, r.psi, e), st.stats, r.stats)
            && Checks(st, r, e) && Reports(cfg, st, r, e)
  {
    hide Parse, Marked, BadTable, HasStandIn, ObserveCc, Own;
  }

  lemma DeliveredReports(cfg: Config, st: State, st3: State, r: State, e: F.Entrance)
    requires OnlyWrites(st3.stats, r.stats) && r.psi == st3.psi && r.watch == st3.watch
    requires Checks(st, st3, e) && Reports(cfg, st, st3, e)
    ensures Checks(st, r, e) && Reports(cfg, st, r, e)
  {
    hide Parse, ObserveCc, Recount, Reclock, Restamp, F.Wanted;
  }

  /** In every state a run reaches: what each packet adds to the counters. */
  lemma RunCounts(cfg: Config, w: World, calls: seq<R.Call>, raw: Raw) returns (e: F.Entrance)
    requires !cfg.dryRun && !R.Run(cfg, w, calls).failed
    ensures var st := R.Run(cfg, w, calls).st;
            var r := Process(cfg, w, st, raw).0;
            && F.AdmittedAs(cfg, st.psi, raw, e)
            && (!Listed(0x1fff, r.psi.video) ==>
                  && AdmissionCounted(cfg, st.psi, raw, Unwanted(cfg, r.psi, e), st.stats, r.stats)
                  && Checks(st, r, e) && Reports(cfg, st, r, e))
  {
    hide R.Run, Process, F.AdmittedAs, AdmissionCounted, Checks, Reports, Unwanted, Listed, F.Told;
    R.RunSafe(cfg, w, calls);
    if Cleaning(cfg) {
      F.RunTold(cfg, w, calls);
    }
    e := ProcessCounts(cfg, w, R.Run(cfg, w, calls).st, raw);
  }

  // ---------- What is written ----------

  /** Every packet handed over is counted as written unless it is refused, and a dry run hands nothing over. */
  predicate Handed(cfg: Config, a: State, b: State, ok: bool)
  {
    if cfg.dryRun then ok && b.log == a.log && b.attempts == a.attempts
    else
      && |b.log| - |a.log| == b.stats.packetsWritten - a.stats.packetsWritten + (if ok then 0 else 1)
      && b.attempts - a.attempts == |b.log| - |a.log|
  }

  lemma WriteHands(cfg: Config, w: World, st: State, raw: Raw, injected: bool)
    ensures var (r, ok) := Write(cfg, w, st, raw, injected);
            && Handed(cfg, st, r, ok) && r.stats.psiInjections == st.stats.psiInjections
            && r.stats.packetsWritten == st.stats.packetsWritten + One(ok)
  {
  }

  lemma {:induction false} TablesHand(cfg: Config, w: World, st: State, tables: seq<Raw>)
    requires tables != []
    ensures var (r, ok) := WriteTables(cfg, w, st, tables);
            && Handed(cfg, st, r, ok) && r.stats.psiInjections == st.stats.psiInjections
            && (ok ==> r.stats.packetsWritten == st.stats.packetsWritten + |tables|)
    decreases |tables|
  {
    var (st1, ok) := Write(cfg, w, st, tables[0], true);
    WriteHands(cfg, w, st, tables[0], true);
    hide Write;
    if ok && tables[1..] != [] {
      TablesHand(cfg, w, st1, tables[1..]);
    }
  }

  lemma DeliverHands(cfg: Config, w: World, st: State, raw: Raw)
    ensures var (r, ok) := Deliver(cfg, w, st, raw);
            && Handed(cfg, st, r, ok)
            && (ok ==> r.stats.packetsWritten - st.stats.packetsWritten == 1 + r.stats.psiInjections - st.stats.psiInjections)
  {
    hide WriteTables, CachedTables, Write;
    if CachedTables(st.psi) != [] {
      TablesHand(cfg, w, st, CachedTables(st.psi));
    }
    WriteHands(cfg, w, if cfg.passthrough then st else Inject(cfg, w, st).0, raw, false);
  }

  /** One packet: what is counted as written is what has been handed over and not refused; besides the packet that goes out
      for this one these are the tables counted as injected. */
  lemma ProcessHands(cfg: Config, w: World, st: State, raw: Raw)
    requires Inv(cfg, st)
    ensures var (r, ok) := Process(cfg, w, st, raw);
            && Handed(cfg, st, r, ok)
            && (ok ==> r.stats.packetsWritten - st.stats.packetsWritten == 1 + r.stats.psiInjections - st.stats.psiInjections)
  {
    AdmitScreens(cfg, st.psi, st.stats, raw);
    AdmitWrites(cfg, st.psi, st.stats, raw);
    hide Admit, Learn, Filter, Rewrite, Deliver, Write, Inv, Screened;
    var a := Admit(cfg, st.psi, st.stats, raw);
    if a.Pass? {
      var st1 := Learn(st.(stats := a.stats), a.raw, a.pkt);
      PreparedHands(cfg, st.(stats := a.stats), a.raw, a.pkt);
      var (st2, raw2) := Filter(cfg, st1, a.raw, a.pkt);
      var (st3, raw3) := Rewrite(cfg, st2, raw2);
      DeliverHands(cfg, w, st3, raw3);
    } else {
      WriteHands(cfg, w, st.(stats := a.stats), a.raw, false);
    }
  }

  lemma AdmitWrites(cfg: Config, psi: Psi, s: Stats, raw: Raw)
    ensures var r := Admit(cfg, psi, s, raw).stats; r.packetsWritten == s.packetsWritten && r.psiInjections == s.psiInjections
  {
    hide Parse, HasValidSection, CachedFor, IsKnownSi;
  }

  lemma PreparedHands(cfg: Config, st: State, raw: Raw, pkt: TsPacket)
    requires Parse(raw) == Some(pkt)
    ensures var (st2, raw2) := Filter(cfg, Learn(st, raw, pkt), raw, pkt);
            var r := Rewrite(cfg, st2, raw2).0;
            && r.log == st.log && r.attempts == st.attempts
            && r.stats.packetsWritten == st.stats.packetsWritten && r.stats.psiInjections == st.stats.psiInjections
  {
    hide Learn, Rewrite, Parse, NullPacket, Allowed;
    LearnFrame(st, raw, pkt);
    var (st2, raw2) := Filter(cfg, Learn(st, raw, pkt), raw, pkt);
    RewriteFrame(cfg, st2, raw2);
  }
}
