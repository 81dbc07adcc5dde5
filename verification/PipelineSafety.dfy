// What one packet may add to the output, whatever the input (src/scatterfix.c:314-419).
module PipelineSafety {
  import opened Bytes
  import opened TsPackets
  import opened PsiTables
  import opened Statistics
  import opened Timestamps
  import opened Continuity
  import opened Pipeline

  /** Kept by every packet, call and reset. */
  predicate Inv(cfg: Config, st: State)
  {
    && CacheValid(st.psi)
    && (Strict(cfg) ==> CacheErrorFree(st.psi))
  }

  /** A packet on a table PID carries a sound table for that PID. */
  predicate TableSound(psi: Psi, raw: Raw)
  {
    Parse(raw).Some? && (IsKnownSi(psi, Parse(raw).value.pid) ==> HasValidSection(psi, Parse(raw).value, raw))
  }

  /** The promises about a packet handed to the write callback. */
  predicate EntryOk(cfg: Config, e: Entry)
  {
    && (Cleaning(cfg) ==> Parse(e.raw).Some?)
    && (Strict(cfg) ==> ErrorFree(e.raw))
    && (Cleaning(cfg) ==> TableSound(e.psi, e.raw))
    && (Cleaning(cfg) && !e.injected ==> Allowed(e.psi, Parse(e.raw).value.pid, cfg.dropAudio))
  }

  predicate LogOk(cfg: Config, log: seq<Entry>)
  {
    forall e :: e in log ==> EntryOk(cfg, e)
  }

  // ---------- Sections under rewriting ----------

  lemma SectionWithCc(raw: Raw, pkt: TsPacket, cc: nat, psi: Psi)
    requires Parse(raw) == Some(pkt)
    ensures Parse(WithCc(raw, cc)) == Some(pkt.(continuityCounter := cc % 16))
    ensures HasValidSection(psi, pkt.(continuityCounter := cc % 16), WithCc(raw, cc)) == HasValidSection(psi, pkt, raw)
  {
    ParseWithCc(raw, cc);
    assert WithCc(raw, cc)[pkt.payloadOffset..] == raw[pkt.payloadOffset..];
    SectionSurvives(pkt, raw, pkt.(continuityCounter := cc % 16), WithCc(raw, cc));
  }

  /** Soundness of a table depends on the table PIDs only. */
  lemma SoundFor(psi: Psi, psi': Psi, pkt: TsPacket, raw: Raw)
    requires Parse(raw) == Some(pkt)
    requires pkt.pid in {0, SDT_PID} || IsPmtPid(psi, pkt.pid) == IsPmtPid(psi', pkt.pid)
    ensures HasValidSection(psi, pkt, raw) == HasValidSection(psi', pkt, raw)
  {
  }

  lemma CachedSound(psi: Psi, pid: nat)
    requires CacheValid(psi) && CachedFor(psi, pid).Some?
    ensures Parse(CachedFor(psi, pid).value).Some? && TableSound(psi, CachedFor(psi, pid).value)
  {
    AnyCachedSound(psi, CachedFor(psi, pid).value);
  }

  /** Every cached packet is sound for the tables known now, even a PMT cached under an earlier PMT PID. */
  lemma AnyCachedSound(psi: Psi, raw: Raw)
    requires CacheValid(psi) && Some(raw) in {psi.cachedPat, psi.cachedPmt, psi.cachedSdt}
    ensures Parse(raw).Some? && TableSound(psi, raw)
  {
    var pkt := Parse(raw).value;
    if CarriesPat(raw) || CarriesSdt(raw) {
      SoundFor(InitialPsi(), psi, pkt, raw);
    } else {
      assert CarriesPmt(raw);
      if IsPmtPid(psi, pkt.pid) {
        SoundFor(InitialPsi().(primaryPmtPid := pkt.pid), psi, pkt, raw);
      }
    }
  }

  lemma TableSoundWithCc(psi: Psi, raw: Raw, cc: nat)
    requires Parse(raw).Some? && TableSound(psi, raw)
    ensures TableSound(psi, WithCc(raw, cc))
  {
    SectionWithCc(raw, Parse(raw).value, cc, psi);
  }

  // ---------- Admission ----------

  /** Packets that get past the screens. */
  predicate Screened(cfg: Config, psi: Psi, raw: Raw, pkt: TsPacket)
  {
    && Parse(raw) == Some(pkt)
    && (Strict(cfg) ==> !pkt.transportError)
    && (Cleaning(cfg) && IsKnownSi(psi, pkt.pid) ==> HasValidSection(psi, pkt, raw))
  }

  lemma ErrorsScreened(cfg: Config, psi: Psi, stats: Stats, raw: Raw, pkt: TsPacket)
    requires CacheValid(psi) && (Strict(cfg) ==> CacheErrorFree(psi)) && Parse(raw) == Some(pkt)
    ensures var r := ScreenErrors(cfg, psi, stats, raw, pkt);
            && !r.Lost?
            && (r.Final? ==> r.raw == NullPacket())
            && (r.Pass? && Strict(cfg) ==> !r.pkt.transportError)
  {
    if CachedFor(psi, pkt.pid).Some? {
      CachedSound(psi, pkt.pid);
    }
  }

  lemma TablesScreened(cfg: Config, psi: Psi, stats: Stats, raw: Raw, pkt: TsPacket)
    requires CacheValid(psi) && (Strict(cfg) ==> CacheErrorFree(psi))
    requires Parse(raw) == Some(pkt) && (Strict(cfg) ==> !pkt.transportError)
    ensures var r := ScreenTables(cfg, psi, stats, raw, pkt);
            r.Pass? && Screened(cfg, psi, r.raw, r.pkt)
  {
    hide Parse, NullPacket, WithCc, HasValidSection, CachedFor, CacheValid;
    var cached := CachedFor(psi, pkt.pid);
    if cached.Some? {
      CachedSound(psi, pkt.pid);
      CachedErrorFree(psi, pkt.pid);
      ParseWithCc(cached.value, pkt.continuityCounter);
      TableSoundWithCc(psi, cached.value, pkt.continuityCounter);
    } else {
      NullScreened(psi);
    }
  }

  lemma CachedErrorFree(psi: Psi, pid: nat)
    ensures CacheErrorFree(psi) && CachedFor(psi, pid).Some? ==> ErrorFree(CachedFor(psi, pid).value)
  {
    hide Parse;
  }

  lemma NullScreened(psi: Psi)
    requires CacheValid(psi)
    ensures Parse(NullPacket()).Some? && !Parse(NullPacket()).value.transportError && !IsKnownSi(psi, NULL_PID)
    ensures Parse(NullPacket()).value.pid == NULL_PID
  {
    hide Parse;
  }

  /** Neither of the two "decode again" failures can happen, and what is finished early is a null packet. */
  lemma AdmitScreens(cfg: Config, psi: Psi, stats: Stats, raw: Raw)
    requires CacheValid(psi) && (Strict(cfg) ==> CacheErrorFree(psi))
    ensures var r := Admit(cfg, psi, stats, raw);
            && !r.Lost?
            && (r.Final? && Strict(cfg) ==> r.raw == NullPacket())
            && (r.Pass? ==> Screened(cfg, psi, r.raw, r.pkt))
  {
    hide Parse, ScreenErrors, ScreenTables, HasValidSection, NullPacket;
    if Parse(raw).Some? {
      var s := stats.(packetsRead := stats.packetsRead + 1);
      ErrorsScreened(cfg, psi, s, raw, Parse(raw).value);
      var r := ScreenErrors(cfg, psi, s, raw, Parse(raw).value);
      if r.Pass? {
        TablesScreened(cfg, psi, r.stats, r.raw, r.pkt);
      }
    }
  }

  // ---------- Observation, filtering and rewriting ----------

  /** What holds of the packet in the buffer from the filter on, before and behind the rewriters. */
  predicate Presentable(cfg: Config, psi: Psi, raw: Raw)
  {
    && Parse(raw).Some?
    && (Strict(cfg) ==> ErrorFree(raw))
    && (Cleaning(cfg) ==> TableSound(psi, raw) && Allowed(psi, Parse(raw).value.pid, cfg.dropAudio))
  }

  lemma NullPresentable(cfg: Config, psi: Psi)
    requires psi.primaryPmtPid < PID_COUNT
    ensures Presentable(cfg, psi, NullPacket())
  {
  }

  lemma LearnKeeps(cfg: Config, st: State, raw: Raw, pkt: TsPacket)
    requires Inv(cfg, st) && Screened(cfg, st.psi, raw, pkt)
    ensures Inv(cfg, Learn(st, raw, pkt))
    ensures Screened(cfg, Learn(st, raw, pkt).psi, raw, pkt)
  {
    ObserveKeepsCacheValid(st.psi, pkt, raw);
    if Strict(cfg) {
      ObserveKeepsCacheErrorFree(st.psi, pkt, raw);
    }
    ObserveKeepsRole(st.psi, pkt, raw);
  }

  /** The PID, the error flag and the payload flags a rewriter must not touch. */
  predicate SameRole(a: Raw, b: Raw)
  {
    && Parse(a).Some?
    && Parse(b).Some?
    && Parse(b).value == Parse(a).value.(
         continuityCounter := Parse(b).value.continuityCounter,
         pcrBase := Parse(b).value.pcrBase)
  }

  lemma PsiCcRole(psi: Psi, pkt: TsPacket, raw: Raw, t: CcTable)
    requires Parse(raw).Some? && pkt.pid < PID_COUNT
    ensures SameRole(raw, RewritePsiCc(psi, pkt, raw, t).1)
    ensures TableSound(psi, raw) ==> TableSound(psi, RewritePsiCc(psi, pkt, raw, t).1)
  {
    var cc := NextCc(t, pkt.pid, 0);
    ParseWithCc(raw, cc);
    if TableSound(psi, raw) {
      TableSoundWithCc(psi, raw, cc);
    }
  }

  lemma VideoCcRole(psi: Psi, pkt: TsPacket, raw: Raw, t: CcTable)
    requires Parse(raw).Some? && pkt.pid < PID_COUNT && pkt.continuityCounter < 16
    ensures SameRole(raw, RewriteVideoCc(psi, pkt, raw, t).1)
    ensures TableSound(psi, raw) ==> TableSound(psi, RewriteVideoCc(psi, pkt, raw, t).1)
  {
    var cc := NextCc(t, pkt.pid, pkt.continuityCounter);
    ParseWithCc(raw, cc);
    if TableSound(psi, raw) {
      TableSoundWithCc(psi, raw, cc);
    }
  }

  /** A payload that opens with a PES start code is no section: it would point to its next byte and exceed a packet. */
  lemma SectionIsNoPes(pkt: TsPacket, raw: Raw)
    requires Parse(raw) == Some(pkt) && Section(pkt, raw).Some?
    ensures PtsSite(pkt, raw).None?
  {
    hide Parse;
  }

  /** The clock reference lies in front of the payload. */
  lemma PcrInFront(pkt: TsPacket, raw: Raw, st: TimeState)
    requires Parse(raw) == Some(pkt)
    ensures var r := SmoothPcr(pkt, raw, st).1; r[pkt.payloadOffset..] == raw[pkt.payloadOffset..]
  {
    if HasPcrSite(pkt, raw) {
      assert pkt.payloadOffset >= 12;
    }
  }

  /** Smoothing leaves every section alone, even on a table PID that is listed as video too. */
  lemma SmoothKeepsTables(psi: Psi, pkt: TsPacket, raw: Raw, st: TimeState)
    requires Parse(raw) == Some(pkt) && TableSound(psi, raw)
    ensures TableSound(psi, Smooth(psi.video, pkt, raw, st).raw)
  {
    hide Parse, SmoothPcr, Section;
    SmoothKeepsHeader(psi.video, pkt, raw, st);
    if IsKnownSi(psi, pkt.pid) && Listed(pkt.pid, psi.video) {
      var raw1 := SmoothPcr(pkt, raw, st).1;
      PcrEffect(pkt, raw, st);
      PcrInFront(pkt, raw, st);
      SectionSurvives(pkt, raw, Parse(raw1).value, raw1);
      SectionIsNoPes(Parse(raw1).value, raw1);
      assert PtsSite(pkt, raw1).None?;
      assert Smooth(psi.video, pkt, raw, st).raw == raw1;
    }
  }

  /** The smoother reads the packet as it was before the counters were rewritten; that makes no difference. */
  lemma SmoothReadsLayout(video: seq<Stream>, a: TsPacket, b: TsPacket, raw: Raw, st: TimeState)
    requires Layout(a) && b == a.(continuityCounter := b.continuityCounter)
    ensures Smooth(video, a, raw, st) == Smooth(video, b, raw, st)
  {
    var (st1, raw1, pcr) := SmoothPcr(a, raw, st);
    assert (st1, raw1, pcr) == SmoothPcr(b, raw, st);
    assert PtsSite(a, raw1) == PtsSite(b, raw1);
  }

  /** Rewriting counters changes decoded counters only. */
  lemma CountersOnly(cfg: Config, st: State, raw: Raw)
    requires Parse(raw).Some?
    ensures var pkt := Parse(raw).value;
            var raw1 := RewritePsiCc(st.psi, pkt, raw, st.psiCc).1;
            var raw2 := if cfg.smoothVideoCc then RewriteVideoCc(st.psi, pkt, raw1, st.videoCc).1 else raw1;
            Parse(raw2).Some? && Parse(raw2).value == pkt.(continuityCounter := Parse(raw2).value.continuityCounter)
  {
    var pkt := Parse(raw).value;
    ParseWithCc(raw, NextCc(st.psiCc, pkt.pid, 0));
    var raw1 := RewritePsiCc(st.psi, pkt, raw, st.psiCc).1;
    ParseWithCc(raw1, NextCc(st.videoCc, pkt.pid, pkt.continuityCounter));
  }

  /** The packet behind the two counter rewriters. */
  function Recounted(cfg: Config, st: State, raw: Raw): Raw
    requires Parse(raw).Some?
  {
    var pkt := Parse(raw).value;
    var raw1 := RewritePsiCc(st.psi, pkt, raw, st.psiCc).1;
    if cfg.smoothVideoCc then RewriteVideoCc(st.psi, pkt, raw1, st.videoCc).1 else raw1
  }

  lemma RecountedKeeps(cfg: Config, st: State, raw: Raw)
    requires Parse(raw).Some?
    ensures SameRole(raw, Recounted(cfg, st, raw))
    ensures Parse(Recounted(cfg, st, raw)).value ==
            Parse(raw).value.(continuityCounter := Parse(Recounted(cfg, st, raw)).value.continuityCounter)
    ensures TableSound(st.psi, raw) ==> TableSound(st.psi, Recounted(cfg, st, raw))
  {
    hide Parse, RewritePsiCc, RewriteVideoCc, TableSound;
    var pkt := Parse(raw).value;
    PsiCcRole(st.psi, pkt, raw, st.psiCc);
    VideoCcRole(st.psi, pkt, RewritePsiCc(st.psi, pkt, raw, st.psiCc).1, st.videoCc);
    CountersOnly(cfg, st, raw);
  }

  lemma RewriteIs(cfg: Config, st: State, raw: Raw)
    requires Parse(raw).Some? && Cleaning(cfg)
    ensures var (st', raw') := Rewrite(cfg, st, raw);
            var raw2 := Recounted(cfg, st, raw);
            var s := Smooth(st.psi.video, Parse(raw).value, raw2, st.time);
            if cfg.smoothTimestamps then raw' == s.raw && st'.time == s.time else raw' == raw2 && st'.time == st.time
  {
    hide Parse, Smooth, RewritePsiCc, RewriteVideoCc;
  }

  /** The rewriting stage split at the smoother: the counters, then one smoothing step. */
  lemma RewriteParts(cfg: Config, st: State, raw: Raw)
    requires Parse(raw).Some? && Cleaning(cfg)
    ensures var raw2 := Recounted(cfg, st, raw);
            var (st', raw') := Rewrite(cfg, st, raw);
            && SameRole(raw, raw2)
            && SameRole(raw2, raw')
            && (cfg.smoothTimestamps ==> SmoothItem(st.time, Item(st.psi.video, raw2)) == (st'.time, Item(st.psi.video, raw')))
            && (!cfg.smoothTimestamps ==> raw' == raw2 && st'.time == st.time)
            && (TableSound(st.psi, raw) ==> TableSound(st.psi, raw'))
            && Parse(raw').value.continuityCounter == Parse(raw2).value.continuityCounter
  {
    hide Parse, TableSound, Smooth, Rewrite, Recounted;
    var pkt := Parse(raw).value;
    RecountedKeeps(cfg, st, raw);
    RewriteIs(cfg, st, raw);
    var raw2 := Recounted(cfg, st, raw);
    if cfg.smoothTimestamps {
      var pkt2 := Parse(raw2).value;
      SmoothReadsLayout(st.psi.video, pkt, pkt2, raw2, st.time);
      SmoothKeepsHeader(st.psi.video, pkt2, raw2, st.time);
      if TableSound(st.psi, raw) {
        SmoothKeepsTables(st.psi, pkt2, raw2, st.time);
      }
    }
  }

  lemma RewriteKeeps(cfg: Config, st: State, raw: Raw)
    requires Presentable(cfg, st.psi, raw)
    ensures Presentable(cfg, st.psi, Rewrite(cfg, st, raw).1)
  {
    if Cleaning(cfg) {
      RewriteParts(cfg, st, raw);
    }
  }

  // ---------- Writing ----------

  /** Entries appended by injection: cached tables, under the tables known now. */
  predicate InjectedFrom(psi: Psi, e: Entry)
  {
    e.injected && e.psi == psi && Some(e.raw) in {psi.cachedPat, psi.cachedPmt, psi.cachedSdt}
  }

  /** `after` extends `before` by injected tables only. */
  predicate OnlyInjected(psi: Psi, before: seq<Entry>, after: seq<Entry>)
  {
    && |before| <= |after|
    && after[..|before|] == before
    && forall i :: |before| <= i < |after| ==> InjectedFrom(psi, after[i])
  }

  lemma {:induction false} TablesEffect(cfg: Config, w: World, st: State, tables: seq<Raw>)
    requires forall i :: 0 <= i < |tables| ==> Some(tables[i]) in {st.psi.cachedPat, st.psi.cachedPmt, st.psi.cachedSdt}
    ensures var (r, ok) := WriteTables(cfg, w, st, tables);
            && OnlyInjected(st.psi, st.log, r.log)
            && r == st.(log := r.log, attempts := r.attempts, stats := st.stats.(packetsWritten := r.stats.packetsWritten))
            && (ok ==> r.stats.packetsWritten == st.stats.packetsWritten + |tables|)
    decreases |tables|
  {
    if tables != [] {
      var (st1, ok) := Write(cfg, w, st, tables[0], true);
      if ok {
        TablesEffect(cfg, w, st1, tables[1..]);
      }
    }
  }

  lemma InjectEffect(cfg: Config, w: World, st: State)
    ensures var (r, ok) := Inject(cfg, w, st);
            && OnlyInjected(st.psi, st.log, r.log)
            && r == st.(log := r.log, attempts := r.attempts, lastInject := r.lastInject, stats := r.stats)
            && r.stats.packetsRead == st.stats.packetsRead
            && (ok ==> r.stats.packetsWritten - st.stats.packetsWritten == r.stats.psiInjections - st.stats.psiInjections)
  {
    TablesEffect(cfg, w, st, CachedTables(st.psi));
  }

  lemma InjectedOk(cfg: Config, st: State, e: Entry)
    requires Inv(cfg, st) && InjectedFrom(st.psi, e)
    ensures EntryOk(cfg, e)
  {
    AnyCachedSound(st.psi, e.raw);
  }

  // ---------- The whole packet ----------

  /** The state and buffer just before the packet is delivered; `None` when it was finished at admission. */
  function Prepared(cfg: Config, st: State, raw: Raw): Option<(State, Raw)>
  {
    match Admit(cfg, st.psi, st.stats, raw)
    case Final(_, _) => None
    case Lost(_) => None
    case Pass(stats, raw1, pkt) =>
      var (st2, raw2) := Filter(cfg, Learn(st.(stats := stats), raw1, pkt), raw1, pkt);
      Some(Rewrite(cfg, st2, raw2))
  }

  /** The fields that admission, observation, filtering and rewriting leave alone. */
  predicate Unwritten(a: State, b: State)
  {
    && b.log == a.log && b.attempts == a.attempts && b.lastInject == a.lastInject
    && b.stats.packetsRead == a.stats.packetsRead
    && b.stats.packetsWritten == a.stats.packetsWritten
    && b.stats.psiInjections == a.stats.psiInjections
  }

  lemma LearnFrame(st: State, raw: Raw, pkt: TsPacket)
    requires Parse(raw) == Some(pkt)
    ensures Unwritten(st, Learn(st, raw, pkt))
  {
  }

  lemma RewriteFrame(cfg: Config, st: State, raw: Raw)
    ensures Unwritten(st, Rewrite(cfg, st, raw).0) && Rewrite(cfg, st, raw).0.psi == st.psi
  {
  }

  lemma FilterKeeps(cfg: Config, st: State, raw: Raw, pkt: TsPacket)
    requires Inv(cfg, st) && Screened(cfg, st.psi, raw, pkt)
    ensures var (st', raw') := Filter(cfg, st, raw, pkt);
            Presentable(cfg, st.psi, raw') && st'.psi == st.psi && Unwritten(st, st')
  {
    NullPresentable(cfg, st.psi);
  }

  lemma PreparedOk(cfg: Config, st: State, raw: Raw)
    requires Inv(cfg, st)
    ensures Prepared(cfg, st, raw).Some? ==>
              var (st1, raw1) := Prepared(cfg, st, raw).value;
              && Inv(cfg, st1) && Presentable(cfg, st1.psi, raw1)
              && Unwritten(st.(stats := st.stats.(packetsRead := st.stats.packetsRead + 1)), st1)
  {
    AdmitScreens(cfg, st.psi, st.stats, raw);
    AdmitCounts(cfg, st.psi, st.stats, raw);
    var r := Admit(cfg, st.psi, st.stats, raw);
    if r.Pass? {
      var st1 := st.(stats := r.stats);
      LearnKeeps(cfg, st1, r.raw, r.pkt);
      LearnFrame(st1, r.raw, r.pkt);
      var learned := Learn(st1, r.raw, r.pkt);
      FilterKeeps(cfg, learned, r.raw, r.pkt);
      var (st2, raw2) := Filter(cfg, learned, r.raw, r.pkt);
      RewriteKeeps(cfg, st2, raw2);
      RewriteFrame(cfg, st2, raw2);
    }
  }

  lemma AdmitCounts(cfg: Config, psi: Psi, stats: Stats, raw: Raw)
    ensures var s := Admit(cfg, psi, stats, raw).stats;
            && s.packetsRead == stats.packetsRead + 1
            && s.packetsWritten == stats.packetsWritten
            && s.psiInjections == stats.psiInjections
  {
    hide Parse, HasValidSection, NullPacket, CachedFor, WithCc;
  }

  lemma DeliverOk(cfg: Config, w: World, st: State, raw: Raw)
    requires Inv(cfg, st) && LogOk(cfg, st.log) && Presentable(cfg, st.psi, raw)
    ensures var (r, ok) := Deliver(cfg, w, st, raw);
            && Inv(cfg, r) && LogOk(cfg, r.log)
            && r.stats.packetsRead == st.stats.packetsRead
            && (ok ==> r.stats.packetsWritten - r.stats.psiInjections == st.stats.packetsWritten - st.stats.psiInjections + 1)
  {
    InjectEffect(cfg, w, st);
    var (st2, ok) := if cfg.passthrough then (st, true) else Inject(cfg, w, st);
    forall e | e in st2.log ensures EntryOk(cfg, e) {
      var i :| 0 <= i < |st2.log| && st2.log[i] == e;
      if i >= |st.log| {
        InjectedOk(cfg, st, e);
      } else {
        assert st.log[i] == e;
      }
    }
    assert EntryOk(cfg, Entry(raw, false, st.psi, st.stats.packetsRead));
  }

  /** Every packet written obeys its promises, the invariant stays, and nothing is lost on the way. */
  lemma ProcessSafe(cfg: Config, w: World, st: State, raw: Raw)
    requires Inv(cfg, st) && LogOk(cfg, st.log)
    ensures var (r, ok) := Process(cfg, w, st, raw);
            && Inv(cfg, r) && LogOk(cfg, r.log)
            && r.stats.packetsRead == st.stats.packetsRead + 1
            && (ok ==> r.stats.packetsWritten - r.stats.psiInjections == st.stats.packetsWritten - st.stats.psiInjections + 1)
  {
    hide Parse, Admit;
    AdmitScreens(cfg, st.psi, st.stats, raw);
    AdmitCounts(cfg, st.psi, st.stats, raw);
    PreparedOk(cfg, st, raw);
    if Prepared(cfg, st, raw).Some? {
      var (st1, raw1) := Prepared(cfg, st, raw).value;
      DeliverOk(cfg, w, st1, raw1);
    } else {
      var r := Admit(cfg, st.psi, st.stats, raw);
      assert EntryOk(cfg, Entry(r.raw, false, st.psi, st.stats.packetsRead + 1)) by {
        NullPresentable(cfg, st.psi);
      }
    }
  }
}
