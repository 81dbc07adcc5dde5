// The repair pipeline as a state machine over packets (src/scatterfix.c:31-113, 314-419 and src/repair.c).
// The clock and the write callback are parameters: `clock` gives the time while a given packet is
// handled, `accepts` the answer of the n-th call of the callback.
module Pipeline {
  import opened Bytes
  import opened TsPackets
  import opened PsiTables
  import opened Statistics
  import opened Timestamps
  import opened Continuity

  datatype Config = Config(
    psiIntervalMs: nat,
    passthrough: bool,
    sanitize: bool,
    cleanTs: bool,
    dropAudio: bool,
    smoothVideoCc: bool,
    smoothTimestamps: bool,
    dryRun: bool)

  datatype World = World(clock: nat -> nat, accepts: nat -> bool)

  /** One packet handed to the write callback, the tables known at that moment, and how many packets had been read. */
  datatype Entry = Entry(raw: Raw, injected: bool, psi: Psi, number: nat)

  /** `log` holds what was handed over since the last reset, `attempts` counts hand-overs for ever. */
  datatype State = State(
    psi: Psi,
    watch: CcWatch,
    lastInject: nat,
    psiCc: CcTable,
    videoCc: CcTable,
    time: TimeState,
    stats: Stats,
    log: seq<Entry>,
    attempts: nat)

  function InitialState(): (st: State)
    ensures st.stats == InitialStats() && st.log == []
  {
    State(InitialPsi(), BlankWatch(), 0, BlankTable(), BlankTable(), FreshTime(), InitialStats(), [], 0)
  }

  /** `scatterfix_reset`: all learned state goes, the statistics stay. */
  function ResetState(st: State): State
  {
    InitialState().(stats := st.stats, attempts := st.attempts)
  }

  /** Replacing damaged packets is on. */
  predicate Strict(cfg: Config)
  {
    (cfg.sanitize || cfg.cleanTs) && !cfg.passthrough
  }

  predicate Cleaning(cfg: Config)
  {
    cfg.cleanTs && !cfg.passthrough
  }

  // ---------- Writing ----------

  /** `repair_write_packet`. */
  function Write(cfg: Config, w: World, st: State, raw: Raw, injected: bool): (State, bool)
  {
    var counted := st.stats.(packetsWritten := st.stats.packetsWritten + 1);
    if cfg.dryRun then (st.(stats := counted), true) else
    var handed := st.(log := st.log + [Entry(raw, injected, st.psi, st.stats.packetsRead)], attempts := st.attempts + 1);
    if w.accepts(st.attempts) then (handed.(stats := counted), true) else (handed, false)
  }

  /** The tables an injection repeats: PAT, PMT and SDT, as far as they are cached. */
  function CachedTables(psi: Psi): seq<Raw>
  {
    (if psi.cachedPat.Some? then [psi.cachedPat.value] else [])
    + (if psi.cachedPmt.Some? then [psi.cachedPmt.value] else [])
    + (if psi.cachedSdt.Some? then [psi.cachedSdt.value] else [])
  }

  /** Tables written one after the other until one is refused. */
  function WriteTables(cfg: Config, w: World, st: State, tables: seq<Raw>): (State, bool)
    decreases |tables|
  {
    if tables == [] then (st, true) else
    var (st1, ok) := Write(cfg, w, st, tables[0], true);
    if ok then WriteTables(cfg, w, st1, tables[1..]) else (st1, false)
  }

  predicate InjectDue(cfg: Config, w: World, st: State)
  {
    && cfg.psiIntervalMs != 0
    && CachedTables(st.psi) != []
    && !(st.lastInject != 0 && (w.clock(st.stats.packetsRead) - st.lastInject) % U64 < cfg.psiIntervalMs)
  }

  /** `repair_maybe_inject_psi`. */
  function Inject(cfg: Config, w: World, st: State): (State, bool)
  {
    if !InjectDue(cfg, w, st) then (st, true) else
    var (st1, ok) := WriteTables(cfg, w, st, CachedTables(st.psi));
    if !ok then (st1, false) else
    var n := |CachedTables(st.psi)|;
    (st1.(lastInject := w.clock(st.stats.packetsRead),
          stats := st1.stats.(psiInjections := st1.stats.psiInjections + n, repairActions := st1.stats.repairActions + n)),
     true)
  }

  // ---------- Admission: damaged packets and damaged tables ----------

  /** The cached table standing in for a packet of this PID. */
  function CachedFor(psi: Psi, pid: nat): Option<Raw>
  {
    if pid == 0 && psi.cachedPat.Some? then psi.cachedPat
    else if IsPmtPid(psi, pid) && psi.cachedPmt.Some? then psi.cachedPmt
    else if pid == SDT_PID && psi.cachedSdt.Some? then psi.cachedSdt
    else None
  }

  /** What becomes of an incoming packet: written at once, lost, or passed on. */
  datatype Admitted =
    | Final(stats: Stats, raw: Raw)
    | Lost(stats: Stats)
    | Pass(stats: Stats, raw: Raw, pkt: TsPacket)

  function CountNull(cfg: Config, s: Stats): Stats
  {
    s.(repairActions := s.repairActions + 1, cleanTsNullPackets := s.cleanTsNullPackets + if cfg.cleanTs then 1 else 0)
  }

  function CountLost(s: Stats): Stats
  {
    s.(packetsDropped := s.packetsDropped + 1, invalidPackets := s.invalidPackets + 1)
  }

  /** A packet put in place of another is decoded again. */
  function Again(s: Stats, raw: Raw): (r: Admitted)
    ensures r.Pass? ==> Parse(r.raw) == Some(r.pkt)
  {
    match Parse(raw)
    case None => Lost(CountLost(s))
    case Some(pkt) => Pass(s, raw, pkt)
  }

  /** `clean_ts_replace_bad_psi`. */
  function ScreenTables(cfg: Config, psi: Psi, stats: Stats, raw: Raw, pkt: TsPacket): (r: Admitted)
    requires Parse(raw) == Some(pkt)
    ensures r.Pass? ==> Parse(r.raw) == Some(r.pkt)
  {
    if !Cleaning(cfg) || !IsKnownSi(psi, pkt.pid) || HasValidSection(psi, pkt, raw) then Pass(stats, raw, pkt) else
    var s := stats.(repairActions := stats.repairActions + 1);
    match CachedFor(psi, pkt.pid)
    case Some(cached) =>
      Again(s.(cleanTsPsiCacheRepairs := s.cleanTsPsiCacheRepairs + 1), WithCc(cached, pkt.continuityCounter))
    case None =>
      Again(s.(cleanTsNullPackets := s.cleanTsNullPackets + 1, cleanTsBadPsiNulls := s.cleanTsBadPsiNulls + 1), NullPacket())
  }

  /** A packet whose transport error indicator is set: `repair_replace_tei_from_cache`, or a null packet. */
  function ScreenErrors(cfg: Config, psi: Psi, stats: Stats, raw: Raw, pkt: TsPacket): (r: Admitted)
    requires Parse(raw) == Some(pkt)
    ensures r.Pass? ==> Parse(r.raw) == Some(r.pkt)
  {
    if cfg.passthrough || !pkt.transportError then Pass(stats, raw, pkt) else
    var s := stats.(transportErrorPackets := stats.transportErrorPackets + 1);
    match CachedFor(psi, pkt.pid)
    case Some(cached) => Again(s.(psiCacheRepairs := s.psiCacheRepairs + 1, repairActions := s.repairActions + 1), cached)
    case None =>
      var s' := s.(unrepairableTransportErrors := s.unrepairableTransportErrors + 1);
      if cfg.sanitize || cfg.cleanTs then Final(CountNull(cfg, s'), NullPacket()) else Pass(s', raw, pkt)
  }

  function Admit(cfg: Config, psi: Psi, stats: Stats, raw: Raw): (r: Admitted)
    ensures r.Pass? ==> Parse(r.raw) == Some(r.pkt)
  {
    var s := stats.(packetsRead := stats.packetsRead + 1);
    match Parse(raw)
    case None =>
      var s' := s.(invalidPackets := s.invalidPackets + 1);
      if Strict(cfg) then Final(CountNull(cfg, s'), NullPacket()) else Final(s', raw)
    case Some(pkt) =>
      var r := ScreenErrors(cfg, psi, s, raw, pkt);
      if r.Pass? then ScreenTables(cfg, psi, r.stats, r.raw, r.pkt) else r
  }

  // ---------- Observation, filtering and rewriting ----------

  /** `clean_ts_pid_allowed`. */
  predicate Allowed(psi: Psi, pid: nat, dropAudio: bool)
  {
    || pid == NULL_PID
    || pid == 0
    || !psi.hasPmt
    || pid == psi.primaryPmtPid
    || pid == psi.pcrPid
    || Listed(pid, psi.video)
    || (!dropAudio && Listed(pid, psi.audio))
  }

  function Learn(st: State, raw: Raw, pkt: TsPacket): State
    requires Parse(raw) == Some(pkt)
  {
    var (watch, stats) := ObserveCc(st.watch, pkt, st.stats);
    st.(watch := watch, stats := stats, psi := Observe(st.psi, pkt, raw))
  }

  function Filter(cfg: Config, st: State, raw: Raw, pkt: TsPacket): (State, Raw)
  {
    if !Cleaning(cfg) || Allowed(st.psi, pkt.pid, cfg.dropAudio) then (st, raw) else
    (st.(stats := st.stats.(cleanTsNullPackets := st.stats.cleanTsNullPackets + 1,
                            cleanTsFilteredPids := st.stats.cleanTsFilteredPids + 1,
                            repairActions := st.stats.repairActions + 1)),
     NullPacket())
  }

  /** `clean_ts_rewrite_psi_cc`. */
  function RewritePsiCc(psi: Psi, pkt: TsPacket, raw: Raw, t: CcTable): (CcTable, Raw)
    requires pkt.pid < PID_COUNT
  {
    if !IsKnownSi(psi, pkt.pid) || !pkt.hasPayload then (t, raw) else
    var cc := NextCc(t, pkt.pid, 0);
    (Advance(t, pkt.pid, cc), WithCc(raw, cc))
  }

  /** `clean_ts_rewrite_video_cc`; the flag tells whether the counter changed. */
  function RewriteVideoCc(psi: Psi, pkt: TsPacket, raw: Raw, t: CcTable): (CcTable, Raw, bool)
    requires pkt.pid < PID_COUNT && pkt.continuityCounter < 16
  {
    if !pkt.hasPayload || !Listed(pkt.pid, psi.video) then (t, raw, false) else
    var cc := NextCc(t, pkt.pid, pkt.continuityCounter);
    (Advance(t, pkt.pid, cc), WithCc(raw, cc), N(raw[3]) % 16 != cc)
  }

  function CountIf(b: bool): nat
  {
    if b then 1 else 0
  }

  /** The three rewriters, in order, all working from the packet as it was before the first. */
  function Rewrite(cfg: Config, st: State, raw: Raw): (State, Raw)
  {
    if !Cleaning(cfg) || Parse(raw).None? then (st, raw) else
    var pkt := Parse(raw).value;
    var (psiCc, raw1) := RewritePsiCc(st.psi, pkt, raw, st.psiCc);
    var (videoCc, raw2, changed) :=
      if cfg.smoothVideoCc then RewriteVideoCc(st.psi, pkt, raw1, st.videoCc) else (st.videoCc, raw1, false);
    var s :=
      if cfg.smoothTimestamps then Smooth(st.psi.video, pkt, raw2, st.time) else Smoothed(st.time, raw2, false, false);
    (st.(psiCc := psiCc, videoCc := videoCc, time := s.time,
         stats := st.stats.(
           cleanTsMediaCcRewrites := st.stats.cleanTsMediaCcRewrites + CountIf(changed),
           cleanTsPcrRewrites := st.stats.cleanTsPcrRewrites + CountIf(s.pcrRewritten),
           cleanTsPtsRewrites := st.stats.cleanTsPtsRewrites + CountIf(s.ptsRewritten),
           repairActions := st.stats.repairActions + CountIf(changed) + CountIf(s.pcrRewritten) + CountIf(s.ptsRewritten))),
     s.raw)
  }

  function Deliver(cfg: Config, w: World, st: State, raw: Raw): (State, bool)
  {
    var (st1, ok) := if cfg.passthrough then (st, true) else Inject(cfg, w, st);
    if !ok then (st1, false) else Write(cfg, w, st1, raw, false)
  }

  /** `process_packet`. */
  function Process(cfg: Config, w: World, st: State, raw: Raw): (State, bool)
  {
    var r := Admit(cfg, st.psi, st.stats, raw);
    var st1 := st.(stats := r.stats);
    match r
    case Final(_, out) => Write(cfg, w, st1, out, false)
    case Lost(_) => (st1, true)
    case Pass(_, raw1, pkt) =>
      var (st2, raw2) := Filter(cfg, Learn(st1, raw1, pkt), raw1, pkt);
      var (st3, raw3) := Rewrite(cfg, st2, raw2);
      Deliver(cfg, w, st3, raw3)
  }
}
