// What is written for each packet read, told from the packet, the tables known and the output so far
// (src/scatterfix.c:31-276, 315-419, src/repair.c:37-72).
module RepairFates {
  import opened Bytes
  import opened TsPackets
  import opened PsiTables
  import opened Statistics
  import opened Timestamps
  import opened Continuity
  import opened Framing
  import opened Pipeline
  import opened PipelineSafety
  import opened PipelineClocks
  import opened SmoothingEffects
  import R = RepairRuns

  // ---------- Admission ----------

  /** A null packet, its payload all ones. */
  predicate IsFiller(raw: Raw)
  {
    raw[0] == 0x47 && raw[1] == 0x1f && raw[2] == 0xff && raw[3] == 0x10 && forall i :: 4 <= i < PACKET_SIZE ==> raw[i] == 0xff
  }

  predicate IsTablePid(psi: Psi, pid: nat)
  {
    pid == 0 || pid == 0x11 || (psi.primaryPmtPid != 0x1fff && pid == psi.primaryPmtPid)
  }

  /** The cached table of that PID. */
  function StandIn(psi: Psi, pid: nat): Option<Raw>
  {
    if pid == 0 && psi.cachedPat.Some? then psi.cachedPat
    else if psi.primaryPmtPid != 0x1fff && pid == psi.primaryPmtPid && psi.cachedPmt.Some? then psi.cachedPmt
    else if pid == 0x11 then psi.cachedSdt
    else None
  }

  /** The packet with another counter. */
  function Renumbered(raw: Raw, cc: nat): Raw
    requires cc < 16
  {
    raw[3 := N(raw[3]) / 16 * 16 + cc]
  }

  /** What becomes of a packet at admission: written at once, or passed on. */
  datatype Entrance = WrittenAtOnce(raw: Raw) | PassedOn(raw: Raw)

  predicate AdmittedAs(cfg: Config, psi: Psi, raw: Raw, e: Entrance)
  {
    if Parse(raw).None? then
      e.WrittenAtOnce? && if (cfg.sanitize || cfg.cleanTs) && !cfg.passthrough then IsFiller(e.raw) else e.raw == raw
    else
      var pkt := Parse(raw).value;
      var standIn := StandIn(psi, pkt.pid);
      if cfg.passthrough then e == PassedOn(raw)
      else if pkt.transportError then
        if standIn.Some? then e == PassedOn(standIn.value)
        else if cfg.sanitize || cfg.cleanTs then e.WrittenAtOnce? && IsFiller(e.raw)
        else e == PassedOn(raw)
      else if cfg.cleanTs && IsTablePid(psi, pkt.pid) && !HasValidSection(psi, pkt, raw) then
        e.PassedOn? && if standIn.Some? then e.raw == Renumbered(standIn.value, pkt.continuityCounter) else IsFiller(e.raw)
      else e == PassedOn(raw)
  }

  function EntranceOf(r: Admitted): Entrance
    requires !r.Lost?
  {
    if r.Final? then WrittenAtOnce(r.raw) else PassedOn(r.raw)
  }

  lemma SameStandIn(psi: Psi, pid: nat)
    ensures CachedFor(psi, pid) == StandIn(psi, pid) && (IsKnownSi(psi, pid) <==> IsTablePid(psi, pid))
  {
  }

  lemma FillerBytes()
    ensures IsFiller(NullPacket())
  {
  }

  /** Admission, exactly, from a sound cache. */
  lemma AdmitsExactly(cfg: Config, psi: Psi, stats: Stats, raw: Raw)
    requires CacheValid(psi) && (Strict(cfg) ==> CacheErrorFree(psi))
    ensures !Admit(cfg, psi, stats, raw).Lost? && AdmittedAs(cfg, psi, raw, EntranceOf(Admit(cfg, psi, stats, raw)))
  {
    AdmitScreens(cfg, psi, stats, raw);
    FillerBytes();
    hide Parse, HasValidSection, NullPacket, CacheErrorFree, Screened, CachedFor, StandIn, IsFiller, ScreenTables, ScreenErrors,
         IsKnownSi, IsTablePid, CacheValid;
    if Parse(raw).Some? {
      var pkt := Parse(raw).value;
      var s := stats.(packetsRead := stats.packetsRead + 1);
      SameStandIn(psi, pkt.pid);
      ErrorScreen(cfg, psi, s, raw, pkt);
      var r := ScreenErrors(cfg, psi, s, raw, pkt);
      if r.Pass? {
        TableScreen(cfg, psi, r.stats, r.raw, r.pkt);
        if !cfg.passthrough && pkt.transportError && StandIn(psi, pkt.pid).Some? {
          CachedPasses(cfg, psi, pkt.pid);
        }
      }
    }
  }

  lemma ErrorScreen(cfg: Config, psi: Psi, stats: Stats, raw: Raw, pkt: TsPacket)
    requires Parse(raw) == Some(pkt) && CacheValid(psi)
    ensures var r := ScreenErrors(cfg, psi, stats, raw, pkt);
            var standIn := StandIn(psi, pkt.pid);
            if cfg.passthrough || !pkt.transportError then r.Pass? && r.raw == raw && r.pkt == pkt
            else if standIn.Some? then r.Pass? && r.raw == standIn.value && Parse(r.raw) == Some(r.pkt)
            else if cfg.sanitize || cfg.cleanTs then r.Final? && r.raw == NullPacket()
            else r.Pass? && r.raw == raw && r.pkt == pkt
  {
    SameStandIn(psi, pkt.pid);
    if CachedFor(psi, pkt.pid).Some? {
      CachedSound(psi, pkt.pid);
    }
    hide Parse, HasValidSection, NullPacket, CachedFor, StandIn, CacheValid, TableSound;
  }

  lemma TableScreen(cfg: Config, psi: Psi, stats: Stats, raw: Raw, pkt: TsPacket)
    requires Parse(raw) == Some(pkt) && CacheValid(psi)
    ensures var r := ScreenTables(cfg, psi, stats, raw, pkt);
            var standIn := StandIn(psi, pkt.pid);
            r.Pass? &&
            if !cfg.passthrough && cfg.cleanTs && IsTablePid(psi, pkt.pid) && !HasValidSection(psi, pkt, raw)
            then (if standIn.Some? then r.raw == Renumbered(standIn.value, pkt.continuityCounter) else r.raw == NullPacket())
            else r.raw == raw
  {
    hide Parse, HasValidSection, NullPacket, CachedFor, StandIn, CacheValid, TableSound, WithCc, Renumbered, IsKnownSi, IsTablePid;
    SameStandIn(psi, pkt.pid);
    if StandIn(psi, pkt.pid).Some? {
      CachedSound(psi, pkt.pid);
      SoundParses(psi, CachedFor(psi, pkt.pid).value);
      ParseWithCc(CachedFor(psi, pkt.pid).value, pkt.continuityCounter);
      RenumberIs(CachedFor(psi, pkt.pid).value, pkt.continuityCounter);
    }
  }

  lemma SoundParses(psi: Psi, raw: Raw)
    requires TableSound(psi, raw)
    ensures Parse(raw).Some?
  {
  }

  lemma RenumberIs(raw: Raw, cc: nat)
    requires cc < 16
    ensures WithCc(raw, cc) == Renumbered(raw, cc)
  {
  }

  /** A cached table passes the table screen. */
  lemma CachedPasses(cfg: Config, psi: Psi, pid: nat)
    requires CacheValid(psi) && StandIn(psi, pid).Some?
    ensures var raw := StandIn(psi, pid).value;
            && Parse(raw).Some?
            && (IsTablePid(psi, Parse(raw).value.pid) ==> HasValidSection(psi, Parse(raw).value, raw))
  {
    SameStandIn(psi, pid);
    CachedSound(psi, pid);
    SameStandIn(psi, Parse(StandIn(psi, pid).value).value.pid);
    hide Parse, HasValidSection, CachedFor, StandIn, CacheValid;
  }

  // ---------- Counters ----------

  /** The counter that follows what has been written on the PID while it was listed as video; the packet's own if that is
      nothing. */
  function VideoCounter(own: seq<Entry>, pid: nat, cc: nat): (r: nat)
    requires cc < 16
    ensures r < 16
  {
    var turns := Turns(ForVideo, own, pid);
    if turns == [] then cc else (CcOf(turns[0]) + |turns|) % 16
  }

  /** Table PIDs count from zero. */
  function TableCounter(own: seq<Entry>, pid: nat): (r: nat)
    ensures r < 16
  {
    |Turns(ForTables, own, pid)| % 16
  }

  /** The packet with the counter it goes out with in cleaning mode. */
  function Counted(cfg: Config, psi: Psi, own: seq<Entry>, raw: Raw, pkt: TsPacket): Raw
    requires pkt.continuityCounter < 16
  {
    if !pkt.hasPayload then raw
    else if cfg.smoothVideoCc && Listed(pkt.pid, psi.video) then Renumbered(raw, VideoCounter(own, pkt.pid, pkt.continuityCounter))
    else if IsTablePid(psi, pkt.pid) then Renumbered(raw, TableCounter(own, pkt.pid))
    else raw
  }

  /** The records tell the counters of every PID but that of null packets. */
  predicate RecordsTell(cfg: Config, st: State)
  {
    forall pid: nat :: pid < 0x1fff ==> RecordTells(cfg, st, pid)
  }

  predicate RecordTells(cfg: Config, st: State, pid: nat)
    requires pid < PID_COUNT
  {
    CountersInStep(cfg, ForTables, st, pid) && (cfg.smoothVideoCc ==> CountersInStep(cfg, ForVideo, st, pid))
  }

  lemma CountersTold(cfg: Config, st: State, pid: nat, cc: nat)
    requires pid < PID_COUNT && cc < 16 && RecordTells(cfg, st, pid)
    ensures NextCc(st.psiCc, pid, 0) == TableCounter(Own(st.log), pid)
    ensures cfg.smoothVideoCc ==> NextCc(st.videoCc, pid, cc) == VideoCounter(Own(st.log), pid, cc)
  {
    hide Turns, RunsOn;
  }

  lemma Renumbers(raw: Raw, a: nat, b: nat)
    requires a < 16 && b < 16
    ensures WithCc(WithCc(raw, a), b) == WithCc(raw, b)
  {
  }

  lemma RecountedIs(cfg: Config, st: State, raw: Raw)
    requires Parse(raw).Some? && RecordsTell(cfg, st) && (Parse(raw).value.pid == 0x1fff ==> !Listed(0x1fff, st.psi.video))
    ensures Recounted(cfg, st, raw) == Counted(cfg, st.psi, Own(st.log), raw, Parse(raw).value)
  {
    var pkt := Parse(raw).value;
    if pkt.pid < 0x1fff {
      assert RecordTells(cfg, st, pkt.pid);
      CountersTold(cfg, st, pkt.pid, pkt.continuityCounter);
    } else {
      assert !IsTablePid(st.psi, pkt.pid);
    }
    SameStandIn(st.psi, pkt.pid);
    hide RecordsTell, RecordTells, Own, IsKnownSi, IsTablePid, WithCc, Renumbered, NextCc, Advance, TableCounter, VideoCounter, Parse, Listed;
    var table, video := NextCc(st.psiCc, pkt.pid, 0), NextCc(st.videoCc, pkt.pid, pkt.continuityCounter);
    Renumbers(raw, table, video);
    RenumberIs(raw, table);
    RenumberIs(raw, video);
  }

  // ---------- The packet that goes out ----------

  /** The PIDs cleaning mode lets through. */
  predicate Wanted(cfg: Config, psi: Psi, pid: nat)
  {
    || pid == 0x1fff || pid == 0 || !psi.hasPmt || pid == psi.primaryPmtPid || pid == psi.pcrPid
    || Listed(pid, psi.video) || (!cfg.dropAudio && Listed(pid, psi.audio))
  }

  /** What a packet passed on becomes, `own` being the output so far and `psi` the tables it leaves. */
  predicate SentAs(cfg: Config, psi: Psi, own: seq<Entry>, raw: Raw, pkt: TsPacket, out: Raw)
    requires Layout(pkt) && pkt.continuityCounter < 16
  {
    if !cfg.cleanTs || cfg.passthrough then out == raw
    else if !Wanted(cfg, psi, pkt.pid) then IsFiller(out)
    else
      var counted := Counted(cfg, psi, own, raw, pkt);
      if cfg.smoothTimestamps && Listed(pkt.pid, psi.video)
      then Mended(pkt, counted, out, Trail(Items(own), Pts), Trail(Items(own), Pcr))
      else out == counted
  }

  /** What is known of a state reached in cleaning mode. */
  ghost predicate Told(cfg: Config, st: State)
  {
    RecordsTell(cfg, st) && (cfg.smoothTimestamps ==> TimeInStep(st))
  }

  lemma TimesTold(st: State)
    requires TimeInStep(st)
    ensures Remembers(st.time, Pts, Trail(Items(Own(st.log)), Pts)) && Remembers(st.time, Pcr, Trail(Items(Own(st.log)), Pcr))
  {
    hide Remembers, Trail, SmoothRun;
    var pre :| SmoothRun(FreshTime(), pre) == (st.time, Items(Own(st.log)));
    OutputPaced(pre, Pts);
    OutputPaced(pre, Pcr);
  }

  /** The rewriters, on a packet the filter lets through. */
  lemma RewritesAs(cfg: Config, st: State, raw: Raw)
    requires Cleaning(cfg) && Parse(raw).Some? && Told(cfg, st) && Wanted(cfg, st.psi, Parse(raw).value.pid)
    requires !Listed(0x1fff, st.psi.video)
    ensures SentAs(cfg, st.psi, Own(st.log), raw, Parse(raw).value, Rewrite(cfg, st, raw).1)
  {
    var pkt := Parse(raw).value;
    RewriteParts(cfg, st, raw);
    RecountedIs(cfg, st, raw);
    RecountedKeeps(cfg, st, raw);
    var counted := Recounted(cfg, st, raw);
    CountedRole(cfg, st, raw);
    hide Parse, Recounted, Counted, Rewrite, SmoothItem, Mended, TableSound, Listed, RecordsTell, Own, Trail, Items, Remembers;
    if cfg.smoothTimestamps {
      TimesTold(st);
      ItemMended(st.time, Item(st.psi.video, counted), Trail(Items(Own(st.log)), Pts), Trail(Items(Own(st.log)), Pcr));
      MendedIgnoresCc(pkt, Parse(counted).value, counted, Rewrite(cfg, st, raw).1, Trail(Items(Own(st.log)), Pts), Trail(Items(Own(st.log)), Pcr));
    }
  }

  /** A new counter leaves all else of the packet. */
  lemma CountedRole(cfg: Config, st: State, raw: Raw)
    requires Parse(raw).Some?
    ensures var counted := Recounted(cfg, st, raw);
            && Parse(counted).Some?
            && Parse(counted).value == Parse(raw).value.(continuityCounter := Parse(counted).value.continuityCounter)
  {
    var pkt := Parse(raw).value;
    var table, video := NextCc(st.psiCc, pkt.pid, 0), NextCc(st.videoCc, pkt.pid, pkt.continuityCounter);
    ParseWithCc(raw, table);
    ParseWithCc(raw, video);
    ParseWithCc(WithCc(raw, table), video);
    hide Parse, WithCc, NextCc, IsKnownSi, Listed;
  }

  lemma MendedIgnoresCc(pkt: TsPacket, other: TsPacket, before: Raw, after: Raw, pts: seq<nat>, pcr: seq<nat>)
    requires Layout(pkt) && Layout(other) && other == pkt.(continuityCounter := other.continuityCounter)
    ensures Mended(other, before, after, pts, pcr) <==> Mended(pkt, before, after, pts, pcr)
  {
    hide InPlaceAfter, ReadPts33, DtsMended, Same;
    assert OpensPes(other, before) == OpensPes(pkt, before) && CarriesDts(other, before) == CarriesDts(pkt, before);
    assert CarriesPcr(other, before) == CarriesPcr(pkt, before);
  }

  lemma FillerSent(cfg: Config, st: State)
    requires Cleaning(cfg) && Told(cfg, st) && !Listed(0x1fff, st.psi.video)
    ensures IsFiller(Rewrite(cfg, st, NullPacket()).1)
  {
    hide Parse, NullPacket, Rewrite, IsFiller, Recounted, Told;
    FillerBytes();
    RewriteParts(cfg, st, NullPacket());
    NullRecounted(cfg, st);
    if cfg.smoothTimestamps {
      NullSmoothed(st);
    }
  }

  lemma NullRecounted(cfg: Config, st: State)
    requires Told(cfg, st) && !Listed(0x1fff, st.psi.video)
    ensures Recounted(cfg, st, NullPacket()) == NullPacket()
  {
    hide Parse, NullPacket, Listed;
    RecountedIs(cfg, st, NullPacket());
  }

  lemma NullSmoothed(st: State)
    requires !Listed(0x1fff, st.psi.video)
    ensures SmoothItem(st.time, Item(st.psi.video, NullPacket())).1.raw == NullPacket()
  {
    hide Parse, NullPacket, Listed, SmoothPcr, SmoothPts;
  }

  lemma SameWanted(cfg: Config, psi: Psi, pid: nat)
    ensures Allowed(psi, pid, cfg.dropAudio) <==> Wanted(cfg, psi, pid)
  {
  }

  /** Observers and filter leave what the rewriters go by. */
  lemma StillTold(cfg: Config, st: State, raw: Raw, pkt: TsPacket, stats: Stats)
    requires Parse(raw) == Some(pkt) && Told(cfg, st)
    ensures var learned := Learn(st.(stats := stats), raw, pkt);
            var st2 := Filter(cfg, learned, raw, pkt).0;
            && Told(cfg, st2) && Told(cfg, learned) && st2.log == st.log && learned.log == st.log
            && st2.psi == learned.psi == Observe(st.psi, pkt, raw)
  {
    hide Parse, Observe, NullPacket, Allowed, ObservePid, Turns, RunsOn, Counted;
    var learned := Learn(st.(stats := stats), raw, pkt);
    var st2 := Filter(cfg, learned, raw, pkt).0;
    forall pid: nat | pid < 0x1fff ensures RecordTells(cfg, learned, pid) && RecordTells(cfg, st2, pid) {
      assert RecordTells(cfg, st, pid);
    }
    if cfg.smoothTimestamps {
      InStepByOwn(st, learned);
      InStepByOwn(st, st2);
    }
  }

  /** The packet that follows the tables injected is the one made of it. */
  lemma DeliveredLast(cfg: Config, w: World, st: State, raw: Raw)
    requires !cfg.dryRun && Deliver(cfg, w, st, raw).1
    ensures var r := Deliver(cfg, w, st, raw).0;
            r.psi == st.psi && r.log != [] && r.log[|r.log| - 1].raw == raw && !r.log[|r.log| - 1].injected
  {
    InjectEffect(cfg, w, st);
    hide Inject;
  }

  lemma DeliveredPsi(cfg: Config, w: World, st: State, raw: Raw)
    ensures Deliver(cfg, w, st, raw).0.psi == st.psi
  {
    InjectEffect(cfg, w, st);
    hide Inject;
  }

  /** One packet, from what it is to what is written for it. */
  lemma ProcessFate(cfg: Config, w: World, st: State, raw: Raw) returns (e: Entrance)
    requires Inv(cfg, st) && !cfg.dryRun && Process(cfg, w, st, raw).1 && (Cleaning(cfg) ==> Told(cfg, st))
    ensures AdmittedAs(cfg, st.psi, raw, e)
    ensures var r := Process(cfg, w, st, raw).0;
            && r.log != [] && !r.log[|r.log| - 1].injected
            && var out := r.log[|r.log| - 1].raw;
               if e.WrittenAtOnce? then out == e.raw && r.psi == st.psi
               else
                 && Parse(e.raw).Some?
                 && r.psi == Observe(st.psi, Parse(e.raw).value, e.raw)
                 && (Listed(0x1fff, r.psi.video) || SentAs(cfg, r.psi, Own(st.log), e.raw, Parse(e.raw).value, out))
  {
    AdmitsExactly(cfg, st.psi, st.stats, raw);
    var a := Admit(cfg, st.psi, st.stats, raw);
    e := EntranceOf(a);
    hide Parse, Admit, AdmittedAs, Learn, Filter, Rewrite, Deliver, SentAs, Told, Listed, Inv, Observe, Wanted, IsFiller, Allowed, NullPacket, Own;
    if a.Pass? {
      var learned := Learn(st.(stats := a.stats), a.raw, a.pkt);
      var (st2, raw2) := Filter(cfg, learned, a.raw, a.pkt);
      var (st3, raw3) := Rewrite(cfg, st2, raw2);
      FrameOfLearn(cfg, st, a.raw, a.pkt, a.stats);
      RewriteFrame(cfg, st2, raw2);
      DeliveredLast(cfg, w, st3, raw3);
      if !Listed(0x1fff, learned.psi.video) {
        FilteredSent(cfg, st, a.raw, a.pkt, a.stats);
      }
    }
  }

  lemma FrameOfLearn(cfg: Config, st: State, raw: Raw, pkt: TsPacket, stats: Stats)
    requires Parse(raw) == Some(pkt)
    ensures var learned := Learn(st.(stats := stats), raw, pkt);
            learned.psi == Observe(st.psi, pkt, raw) && Filter(cfg, learned, raw, pkt).0.psi == learned.psi
  {
    hide Parse, Observe, NullPacket, Allowed, ObservePid;
  }

  /** Filter and rewriters, from the state the packet met. */
  lemma FilteredSent(cfg: Config, st: State, raw: Raw, pkt: TsPacket, stats: Stats)
    requires Parse(raw) == Some(pkt) && (Cleaning(cfg) ==> Told(cfg, st))
    requires !Listed(0x1fff, Observe(st.psi, pkt, raw).video)
    ensures var learned := Learn(st.(stats := stats), raw, pkt);
            var (st2, raw2) := Filter(cfg, learned, raw, pkt);
            SentAs(cfg, learned.psi, Own(st.log), raw, pkt, Rewrite(cfg, st2, raw2).1)
  {
    FrameOfLearn(cfg, st, raw, pkt, stats);
    var learned := Learn(st.(stats := stats), raw, pkt);
    SameWanted(cfg, learned.psi, pkt.pid);
    if Cleaning(cfg) {
      StillTold(cfg, st, raw, pkt, stats);
    }
    hide Parse, Learn, Told, Listed, Observe, Allowed, IsFiller, NullPacket, Own, Mended, Counted, Wanted;
    if !Cleaning(cfg) {
      LeftAlone(cfg, learned, raw);
    } else if Allowed(learned.psi, pkt.pid, cfg.dropAudio) {
      RewritesAs(cfg, learned, raw);
    } else {
      FillerSent(cfg, Filter(cfg, learned, raw, pkt).0);
    }
  }

  lemma LeftAlone(cfg: Config, st: State, raw: Raw)
    requires !Cleaning(cfg)
    ensures Rewrite(cfg, st, raw) == (st, raw)
  {
  }

  // ---------- Runs ----------

  lemma RunTold(cfg: Config, w: World, calls: seq<R.Call>)
    requires Cleaning(cfg) && !cfg.dryRun && !R.Run(cfg, w, calls).failed
    ensures Told(cfg, R.Run(cfg, w, calls).st)
  {
    hide R.Run, CountersInStep, CountersRunOn, TimeInStep, IsSmoothed;
    var st := R.Run(cfg, w, calls).st;
    forall pid: nat | pid < 0x1fff ensures RecordTells(cfg, st, pid) {
      R.RunCounters(cfg, w, calls, ForTables, pid);
      if cfg.smoothVideoCc {
        R.RunCounters(cfg, w, calls, ForVideo, pid);
      }
    }
    if cfg.smoothTimestamps {
      R.RunTimes(cfg, w, calls);
    }
  }

  /** In every state a run reaches, what is written for the next packet follows from the packet, the tables known and the
      packets written since the last reset: what it is replaced by if it is damaged, whether its PID is wanted, the next
      counter of its PID, and stamps in place. */
  lemma RunFate(cfg: Config, w: World, calls: seq<R.Call>, raw: Raw) returns (e: Entrance)
    requires !cfg.dryRun && !R.Run(cfg, w, calls).failed && Process(cfg, w, R.Run(cfg, w, calls).st, raw).1
    ensures AdmittedAs(cfg, R.Run(cfg, w, calls).st.psi, raw, e)
    ensures var st := R.Run(cfg, w, calls).st;
            var r := Process(cfg, w, st, raw).0;
            && r.log != [] && !r.log[|r.log| - 1].injected
            && var out := r.log[|r.log| - 1].raw;
               if e.WrittenAtOnce? then out == e.raw && r.psi == st.psi
               else
                 && Parse(e.raw).Some?
                 && r.psi == Observe(st.psi, Parse(e.raw).value, e.raw)
                 && (Listed(0x1fff, r.psi.video) || SentAs(cfg, r.psi, Own(st.log), e.raw, Parse(e.raw).value, out))
  {
    hide R.Run, Process, AdmittedAs, SentAs, Listed, Told, Own, Observe, Parse;
    R.RunSafe(cfg, w, calls);
    if Cleaning(cfg) {
      RunTold(cfg, w, calls);
    }
    e := ProcessFate(cfg, w, R.Run(cfg, w, calls).st, raw);
  }

  /** An undamaged packet of a listed video PID whose counter is the next, whose stamps come 3600 to 93600 ticks after the
      last ones out and whose decoding time is near goes out byte for byte. */
  lemma GoodVideoUntouched(cfg: Config, w: World, calls: seq<R.Call>, raw: Raw)
    requires !cfg.dryRun && !R.Run(cfg, w, calls).failed && Process(cfg, w, R.Run(cfg, w, calls).st, raw).1
    requires Parse(raw).Some? && !Parse(raw).value.transportError
    requires var st, pkt := R.Run(cfg, w, calls).st, Parse(raw).value;
             && Listed(pkt.pid, st.psi.video) && !IsTablePid(st.psi, pkt.pid) && !Listed(0x1fff, st.psi.video)
             && (cfg.smoothVideoCc && pkt.hasPayload ==>
                   pkt.continuityCounter == VideoCounter(Own(st.log), pkt.pid, pkt.continuityCounter))
             && (cfg.smoothTimestamps ==> AllInPlace(pkt, raw, Trail(Items(Own(st.log)), Pts), Trail(Items(Own(st.log)), Pcr)))
    ensures var r := Process(cfg, w, R.Run(cfg, w, calls).st, raw).0;
            r.log != [] && r.log[|r.log| - 1].raw == raw
  {
    hide R.Run, Process, HasValidSection, Own, VideoCounter, AllInPlace;
    var e := RunFate(cfg, w, calls, raw);
    var st, pkt := R.Run(cfg, w, calls).st, Parse(raw).value;
    ForeignPid(st.psi, pkt, raw);
    SameCounter(raw, pkt);
    hide Parse, Mended, Listed, Trail, Items, Observe, StandIn, IsTablePid, IsFiller;
    assert e == PassedOn(raw);
    if Cleaning(cfg) && cfg.smoothTimestamps {
      InPlaceUntouched(pkt, raw, Process(cfg, w, st, raw).0.log[|Process(cfg, w, st, raw).0.log| - 1].raw,
                       Trail(Items(Own(st.log)), Pts), Trail(Items(Own(st.log)), Pcr));
    }
  }

  lemma ForeignPid(psi: Psi, pkt: TsPacket, raw: Raw)
    requires Parse(raw) == Some(pkt) && !IsTablePid(psi, pkt.pid)
    ensures Observe(psi, pkt, raw) == psi
  {
    hide Parse, Section;
  }

  lemma SameCounter(raw: Raw, pkt: TsPacket)
    requires Parse(raw) == Some(pkt)
    ensures Renumbered(raw, pkt.continuityCounter) == raw
  {
    assert raw[3] % 16 == pkt.continuityCounter;
    assert raw[3] / 16 * 16 + raw[3] % 16 == raw[3];
  }
}
