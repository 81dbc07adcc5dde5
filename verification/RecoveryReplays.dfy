// An access unit looked at before it is closed is shown again when it closes: an input (src/recovery.c:211-219, 266-283).
module RecoveryReplays {
  import opened Bytes
  import opened TsPackets
  import opened PsiTables
  import opened AnnexB
  import opened RankModels
  import opened Framing
  import opened RecoverySpec
  import opened RecoveryInvariants
  import opened RecoveryRuns
  import opened RecoveryRanking
  import opened RecoveryLooks
  import opened RecoveryLimits

  // ---------- The input: one packet with parameter sets and a keyframe ----------

  function Nals(): (nals: seq<Nal>)
    ensures |nals| == 3 && nals[0] == Nal(4, [0x67, 0xaa]) && nals[1] == Nal(3, [0x68, 0xaa])
    ensures nals[2] == Nal(3, [0x65] + seq(169, _ => 0xff))
  {
    [Nal(4, [0x67, 0xaa]), Nal(3, [0x68, 0xaa]), Nal(3, [0x65] + seq(169, _ => 0xff))]
  }

  const SET0: seq<byte> := [0, 0, 0, 1, 0x67, 0xaa]
  const SET1: seq<byte> := [0, 0, 1, 0x68, 0xaa]

  function Key(): (s: seq<byte>)
    ensures |s| == 173
  {
    [0, 0, 1, 0x65] + seq(169, _ => 0xff)
  }

  function Unit0(): (s: seq<byte>)
    ensures |s| == PAYLOAD_SIZE
  {
    SET0 + SET1 + Key()
  }

  lemma UnitIsJoin()
    ensures CleanNals(Nals()) && Join(Nals()) == Unit0()
  {
    var nals := Nals();
    assert nals[1..] == [nals[1], nals[2]] && [nals[1], nals[2]][1..] == [nals[2]] && [nals[2]][1..] == [];
    assert NalBytes(nals[0]) == SET0 && NalBytes(nals[1]) == SET1 && NalBytes(nals[2]) == Key();
    assert Join([nals[2]]) == Key() + Join([]) == Key();
    assert Join([nals[1], nals[2]]) == SET1 + Key();
    assert Join(nals) == SET0 + (SET1 + Key());
  }

  lemma UnitSplits()
    ensures Split(Unit0()) == [Unit(0, 4, 6), Unit(6, 3, 11), Unit(11, 3, 184)]
  {
    hide CleanNals, Join, Split, Unit0;
    var nals := Nals();
    UnitIsJoin();
    SplitOfJoin(nals);
    assert nals[1..] == [nals[1], nals[2]] && [nals[1], nals[2]][1..] == [nals[2]] && [nals[2]][1..] == [];
    assert Places([], 184) == [];
    assert Places([nals[2]], 11) == [Unit(11, 3, 184)] + Places([], 184);
    assert Places([nals[1], nals[2]], 6) == [Unit(6, 3, 11)] + Places([nals[2]], 11);
    assert Places(nals, 0) == [Unit(0, 4, 6)] + Places([nals[1], nals[2]], 6);
  }

  const SETS: Headers := [SET0, SET1, []]

  /** What each unit does to the scan. */
  lemma UnitScans(scan: Scan)
    requires scan.data == [] && scan.keySize == 0
    ensures var r := ScanUnits(H264, scan, Unit0(), Split(Unit0()));
            && (scan.headers == [[], [], []] ==> r.headers == SETS && r.headerVersion == scan.headerVersion + 2)
            && (scan.headers == SETS ==> r.headers == SETS && r.headerVersion == scan.headerVersion)
            && r.data == Key() && r.keySize == 173 && r.values[HAS_IDR] == 1.0
  {
    UnitSplits();
    UnitParts();
    hide ScanUnit, Unit0;
    var es := Unit0();
    var us := [Unit(0, 4, 6), Unit(6, 3, 11), Unit(11, 3, 184)];
    assert us[1..] == [us[1], us[2]] && [us[1], us[2]][1..] == [us[2]];
    var scan1 := ScanUnit(H264, scan, es, us[0]);
    var scan2 := ScanUnit(H264, scan1, es, us[1]);
    SetScans(scan, es, us[0], 0, SET0);
    SetScans(scan1, es, us[1], 1, SET1);
    ScanOne(H264, scan2, es, us[2]);
    KeyScans(scan2, es, us[2]);
  }

  lemma UnitParts()
    ensures var es := Unit0();
            && es[0..6] == SET0 && es[6..11] == SET1 && es[11..184] == Key()
            && NalType(H264, es[4]) == 7 && NalType(H264, es[9]) == 8 && NalType(H264, es[14]) == 5
  {
    var es := Unit0();
    assert es[0..6] == SET0 && es[6..11] == SET1 && es[11..184] == Key();
    assert es[4] == 0x67 && es[9] == 0x68 && es[14] == 0x65;
  }

  lemma SetScans(scan: Scan, es: seq<byte>, u: Unit, slot: nat, set': seq<byte>)
    requires slot < 2 && u.at + u.prefix < u.end <= |es| && es[u.at..u.end] == set'
    requires NalType(H264, es[u.at + u.prefix]) == 7 + slot
    ensures ScanUnit(H264, scan, es, u) == ScanHeader(scan, slot, set')
  {
  }

  lemma KeyScans(scan: Scan, es: seq<byte>, u: Unit)
    requires scan.data == [] && scan.keySize == 0 && es == Unit0() && u == Unit(11, 3, 184)
    requires es[11..184] == Key() && NalType(H264, es[14]) == 5
    ensures var r := ScanUnit(H264, scan, es, u);
            && r.headers == scan.headers && r.headerVersion == scan.headerVersion
            && r.data == Key() && r.keySize == 173 && r.values[HAS_IDR] == 1.0
  {
    hide Unit0;
    assert [] + Key() == Key();
  }

  // ---------- The state ----------

  function Stream(): seq<byte>
  {
    HeaderBytes(SETS, 2) + Key()
  }

  /** Ranked streams of access unit 0, all the same bytes under header version 2. */
  predicate AllTheUnit(shown: seq<Shown>, n: nat)
  {
    && |shown| == n
    && forall p :: 0 <= p < n ==>
         !shown[p].voted && shown[p].features.index == 0 && shown[p].version == 2 && shown[p].data == Stream()
  }

  /** The unit is stored, and marked or not; `n` streams have been shown. */
  predicate Stored(st: Rec, marked: bool, n: nat)
  {
    && st.codec == H264 && st.headers == SETS && st.headerVersion == 2
    && |st.candidates| == 1 && st.candidates[0].features.index == 0 && st.candidates[0].data == Key()
    && (st.candidates[0].emitted == 2 <==> marked)
    && AllTheUnit(st.out.shown, n)
  }

  /** The unit is open. */
  predicate UnitOpen(st: Rec)
  {
    && st.codec == H264 && st.pes == Unit0() && !st.dropping && st.current[PACKETS] != 0.0 && st.counters.accessUnits == 0
    && st.pid == PID && st.psi == InitialPsi()
  }

  /** Nothing is stored, or the unit has been looked at. */
  predicate Before(st: Rec, n: nat)
  {
    if n == 0 then st.headers == [[], [], []] && st.headerVersion == 0 && st.candidates == [] && st.out.shown == []
    else Stored(st, true, n)
  }

  ghost predicate AcceptsAll(w: World)
  {
    forall n: nat :: w.candidateOk(n) && w.featuresOk(n)
  }

  // ---------- Analysis ----------

  lemma OneRankedFirst(candidates: seq<Candidate>)
    requires |candidates| == 1
    ensures Ranked(candidates) == [0]
  {
    assert Order(Scores(candidates), 0) == [];
  }

  lemma AnalyzeStored(cfg: Config, w: World, st: Rec, marked: bool, n: nat)
    requires Stored(st, marked, n) && !cfg.vote && AcceptsAll(w)
    ensures var (r, ok) := Analyze(cfg, w, st);
            && ok && Stored(r, true, if marked then n else n + 1) && (UnitOpen(st) ==> UnitOpen(r))
  {
    hide HeaderBytes, Unit0, Key, EmitRanked, InitialPsi, HeadersComplete, Ranked, Stored;
    SetsComplete();
    assert |st.candidates| == 1 && st.codec == H264 && st.headers == SETS by { StoredParts(st, marked, n); }
    OneRankedFirst(st.candidates);
    if marked {
      SkipStored(cfg, w, st, n);
    } else {
      EmitStored(cfg, w, st, n);
    }
    StoredSettled(EmitRanked(cfg, w, st, [0], 0, 0).0, if marked then n else n + 1);
  }

  lemma SetsComplete()
    ensures HeadersComplete(H264, SETS)
  {
  }

  lemma StoredParts(st: Rec, marked: bool, n: nat)
    requires Stored(st, marked, n)
    ensures |st.candidates| == 1 && st.codec == H264 && st.headers == SETS
  {
  }

  lemma StoredSettled(st: Rec, n: nat)
    requires Stored(st, true, n)
    ensures Stored(st.(dirty := false), true, n)
  {
    hide Stream, Key;
  }

  lemma SkipStored(cfg: Config, w: World, st: Rec, n: nat)
    requires Stored(st, true, n)
    ensures EmitRanked(cfg, w, st, [0], 0, 0) == (st, true)
  {
    hide Emit, HeaderBytes, Key;
    assert EmitRanked(cfg, w, st, [0], 1, 0) == (st, true);
  }

  lemma EmitStored(cfg: Config, w: World, st: Rec, n: nat)
    requires Stored(st, false, n) && AcceptsAll(w)
    ensures var (r, ok) := EmitRanked(cfg, w, st, [0], 0, 0);
            ok && Stored(r, true, n + 1) && (UnitOpen(st) ==> UnitOpen(r))
  {
    hide Emit, HeaderBytes, Unit0, Key, InitialPsi;
    var c := st.candidates[0];
    var data := HeaderBytes(st.headers, 2) + c.data;
    EmitFrame(cfg, w, st, data, c.features);
    var st1 := Emit(cfg, w, st, data, c.features, false).0;
    var st2 := st1.(candidates := [c.(emitted := 2)]);
    assert st.candidates[0 := c.(emitted := 2)] == [c.(emitted := 2)];
    assert EmitRanked(cfg, w, st2, [0], 1, 1) == (st2, true);
    assert EmitRanked(cfg, w, st, [0], 0, 0) == (st2, true);
  }

  lemma EmitFrame(cfg: Config, w: World, st: Rec, data: seq<byte>, f: Features)
    requires AcceptsAll(w)
    ensures var (r, ok) := Emit(cfg, w, st, data, f, false);
            && ok && r == st.(counters := r.counters, progress := r.progress, out := r.out)
            && r.out.shown == st.out.shown + [Shown(data, f, false, st.headerVersion)] && r.counters.accessUnits == st.counters.accessUnits
  {
    hide ImagesOk, Decode;
    EmitOk(cfg, w, st, data, f, false);
  }

  // ---------- Closing and looking ----------

  lemma UnitScanned(st: Rec, n: nat)
    requires UnitOpen(st) && Before(st, n)
    ensures var r := ScanPes(st);
            r.headers == SETS && r.headerVersion == 2 && r.data == Key() && r.keySize == 173 && r.values[HAS_IDR] == 1.0
  {
    hide ScanUnits, Split;
    assert st.pes[2] == 0;
    var averaged := st.current[PACKET_CONFIDENCE := st.current[PACKET_CONFIDENCE] / st.current[PACKETS]];
    UnitScans(Scan(st.headers, st.headerVersion, st.dirty, averaged, [], 0, 0));
  }

  lemma StoreTheUnit(cfg: Config, st: Rec, scan: Scan, f: Features)
    requires ScanInside(scan) && f.values[HAS_IDR] == 1.0 && !st.dropping && f.index == 0 && scan.data == Key()
    requires st.candidates == [] || (|st.candidates| == 1 && st.candidates[0].features.index == 0)
    ensures var r := Store(cfg, st, scan, f);
            && |r.candidates| == 1 && r.candidates[0].features.index == 0 && r.candidates[0].data == Key()
            && r.candidates[0].emitted == 0
            && r == st.(candidates := r.candidates, retained := r.retained, dirty := true,
                        counters := st.counters.(keyframes := r.counters.keyframes))
  {
    var others := Others(st.candidates, 0).0;
    if st.candidates != [] {
      assert FindIndex(st.candidates, 0, 0) == Some(0);
      assert st.candidates[..0] + st.candidates[1..] == [];
    }
    assert others == [];
  }

  /** Both a look at the open unit and its end store it anew; the analysis shows it. */
  lemma FinishTheUnit(cfg: Config, w: World, st: Rec, partial: bool, n: nat)
    requires UnitOpen(st) && Before(st, n) && !cfg.vote && AcceptsAll(w)
    ensures var (r, ok) := FinishPes(cfg, w, st, partial);
            && ok && Stored(r, cfg.analyzeOnFeed, if cfg.analyzeOnFeed then n + 1 else n) && (partial ==> UnitOpen(r))
  {
    UnitScanned(st, n);
    hide ScanPes, Store, Analyze, HeuristicScore, Unit0, Key, InitialPsi, HeaderBytes;
    var scan := ScanPes(st);
    var f := UnitFeatures(st, scan);
    var st1 := Scanned(st, scan, partial);
    var st2 := if partial then st1 else Record(st1, f);
    StoreTheUnit(cfg, st2, scan, f);
    var st3 := Store(cfg, st2, scan, f);
    var st4 := if partial then st3 else StartUnit(st3);
    assert Stored(st4, false, n);
    AnalyzeStored(cfg, w, st4, false, n);
  }

  lemma LookAtUnit(cfg: Config, w: World, c: Ctx)
    requires UnitOpen(c.fed.st) && Before(c.fed.st, 0) && c.fed.st.previewSize == 0 && !c.fed.failed && !cfg.vote && AcceptsAll(w)
    ensures var r := AnalyzeCtx(cfg, w, c);
            !r.fed.failed && UnitOpen(r.fed.st) && Stored(r.fed.st, true, 1)
  {
    hide FinishPes, Analyze, Update, Stored, Key, InitialPsi;
    var st := c.fed.st.(previewSize := |c.fed.st.pes|);
    FinishTheUnit(cfg, w, st, true, 0);
    var st1 := FinishPes(cfg, w, st, true).0;
    AnalyzeStored(cfg, w, st1, cfg.analyzeOnFeed, if cfg.analyzeOnFeed then 1 else 0);
    StoredUpdate(Analyze(cfg, w, st1).0, 1);
  }

  lemma StoredUpdate(st: Rec, n: nat)
    requires Stored(st, true, n)
    ensures Stored(Update(st), true, n) && (UnitOpen(st) ==> UnitOpen(Update(st)))
  {
    hide Unit0, Key, Stream, InitialPsi;
  }

  lemma CloseTheUnit(cfg: Config, w: World, c: Ctx)
    requires UnitOpen(c.fed.st) && Stored(c.fed.st, true, 1) && !c.fed.failed && !cfg.vote && AcceptsAll(w)
    ensures var r := FinishCtx(cfg, w, c);
            !r.fed.failed && Stored(r.fed.st, true, 2)
  {
    hide FinishPes, Analyze, Update, Stored, Key, UnitOpen;
    FinishTheUnit(cfg, w, c.fed.st, false, 1);
    var st1 := FinishPes(cfg, w, c.fed.st, false).0;
    AnalyzeStored(cfg, w, st1, cfg.analyzeOnFeed, if cfg.analyzeOnFeed then 2 else 1);
    StoredUpdate(Analyze(cfg, w, st1).0, 2);
  }

  // ---------- The run ----------

  function UnitPacket(): Raw
  {
    MediaPacket(true, 0, Unit0())
  }

  lemma StartsBefore(cfg: Config, st: Rec)
    ensures var r := ResetRec(cfg, st); Before(r, 0) && r.counters.accessUnits == 0
  {
  }

  lemma FedUnit(cfg: Config, w: World)
    requires cfg.videoPid == PID && cfg.codec != H265
    ensures var r := FeedCtx(cfg, w, InitialCtx(cfg), UnitPacket());
            !r.fed.failed && UnitOpen(r.fed.st) && Before(r.fed.st, 0) && r.fed.st.previewSize == 0
  {
    hide Parse, MediaPacket, Packet, Update, InitialPsi, ResetRec, Unit0, Payload;
    var c, raw := InitialCtx(cfg), UnitPacket();
    StartsAmid(cfg);
    StartsBefore(cfg, Rec(InitialPsi(), -1, H264, [], false, -1, ZeroValues(), [[], [], []], 0, [], 0, false, 0, ZeroCounters(),
                          Progress(WaitService, 0, 0, 2, 0), Output(0, [], [], [], [])));
    MediaPacketDecodes(true, 0, Unit0());
    var pkt := Parse(raw).value;
    PacketTaken(cfg, w, c.fed.st, raw, pkt);
    FirstPacketKeeps(cfg, w, c.fed.st, raw, pkt);
    Complete(Step(cfg, w), c.fed, raw);
    assert [] + raw == raw && [] + Unit0() == Unit0();
    UpdateAlike(Packet(cfg, w, c.fed.st, raw).0);
  }

  /** The first packet of a unit stores and shows nothing. */
  lemma FirstPacketKeeps(cfg: Config, w: World, st: Rec, raw: Raw, pkt: TsPacket)
    requires Parse(raw) == Some(pkt) && pkt.pid == PID == st.pid && st.psi == InitialPsi() && pkt.hasPayload
    requires st.current[PACKETS] == 0.0
    ensures var r := Packet(cfg, w, st, raw).0;
            && r.candidates == st.candidates && r.headerVersion == st.headerVersion && r.out == st.out
            && r.counters.accessUnits == st.counters.accessUnits
  {
    hide Parse, Section, CountPacket;
    assert InitialPsi().video == [] && !IsKnownSi(InitialPsi(), PID);
    assert Observe(st.psi, pkt, raw) == st.psi;
    assert Learn(cfg, CountReceived(st), pkt, raw) == CountReceived(st);
  }

  /** Whatever the decoder answers, and with or without analysis on feeding: one packet, a look and the end of the
      stream show the host the same stream of the same access unit twice, with the same parameter sets. */
  lemma OpenUnitShownTwice(cfg: Config, w: World)
    requires cfg.videoPid == PID && cfg.codec != H265 && !cfg.vote && AcceptsAll(w)
    ensures var looked := Run(cfg, w, [Feed(UnitPacket()), Look]).fed.st;
            var closed := Run(cfg, w, [Feed(UnitPacket()), Look, Finish]).fed.st;
            && looked.headerVersion == closed.headerVersion == 2
            && AllTheUnit(looked.out.shown, 1) && AllTheUnit(closed.out.shown, 2)
  {
    hide UnitPacket, Run, AllTheUnit, UnitOpen;
    var first := Feed(UnitPacket());
    ShownTwice(cfg, w, first);
    assert [first] + [Look] == [first, Look] && [first] + [Look] + [Finish] == [first, Look, Finish];
  }

  lemma ShownTwice(cfg: Config, w: World, first: Call)
    requires cfg.videoPid == PID && cfg.codec != H265 && !cfg.vote && AcceptsAll(w) && first == Feed(UnitPacket())
    ensures Stored(Run(cfg, w, [first] + [Look]).fed.st, true, 1)
    ensures Stored(Run(cfg, w, [first] + [Look] + [Finish]).fed.st, true, 2)
  {
    hide UnitPacket, Run, AnalyzeCtx, FinishCtx, UnitOpen, FeedCtx, Stored, Before;
    RunOfFirst(cfg, w, UnitPacket());
    FedUnit(cfg, w);
    RunOn(cfg, w, [first], Look);
    LookAtUnit(cfg, w, Run(cfg, w, [first]));
    RunOn(cfg, w, [first] + [Look], Finish);
    CloseTheUnit(cfg, w, Run(cfg, w, [first] + [Look]));
  }
}
