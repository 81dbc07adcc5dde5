// A look can change what the host is shown later: an input (src/recovery.c:118-126, 211-219, 236-256).
module RecoveryLimits {
  import opened Bytes
  import opened TsPackets
  import opened PsiTables
  import opened AnnexB
  import opened RankModels
  import opened Framing
  import opened RecoverySpec
  import opened RecoveryRuns
  import opened RecoveryStreams
  import opened RecoveryRanking
  import opened RecoveryLooks

  const PID := 0x100
  const PAYLOAD_SIZE := 184

  /** A packet that is all payload. */
  function MediaPacket(start: bool, cc: nat, payload: seq<byte>): (raw: Raw)
    requires cc < 16 && |payload| == PAYLOAD_SIZE
    ensures raw[0] == SYNC_BYTE
  {
    [SYNC_BYTE, if start then 0x41 else 0x01, 0, (0x10 + cc) as byte] + payload
  }

  lemma MediaPacketDecodes(start: bool, cc: nat, payload: seq<byte>)
    requires cc < 16 && |payload| == PAYLOAD_SIZE
    ensures var raw := MediaPacket(start, cc, payload);
            && Parse(raw) == Some(TsPacket(PID, false, start, false, 0, 1, cc, false, true, false, false, 0, 4, PAYLOAD_SIZE))
            && Payload(Parse(raw).value, raw) == payload
  {
    var raw := MediaPacket(start, cc, payload);
    assert raw[1] == (if start then 0x41 else 0x01) && raw[2] == 0 && raw[3] == 0x10 + cc;
    assert raw[4..4 + PAYLOAD_SIZE] == payload;
  }

  // ---------- The input ----------

  /** A PES header whose optional part is 168 bytes of stuffing. */
  function PesHeader(): (s: seq<byte>)
    ensures |s| == 177
  {
    [0, 0, 1, 0xe0, 0, 0, 0x80, 0, 168] + seq(168, _ => 0xff)
  }

  /** A sequence parameter set of two bytes, and the first zero bytes of the start code behind it. */
  const FIRST: seq<byte> := [0, 0, 1, 0x67, 0xaa, 0, 0]

  /** The rest of that start code and a slice. */
  function Second(): (s: seq<byte>)
    ensures |s| == PAYLOAD_SIZE
  {
    [1, 0x41] + seq(182, _ => 0xff)
  }

  function FirstPacket(): Raw
  {
    MediaPacket(true, 0, PesHeader() + FIRST)
  }

  function SecondPacket(): Raw
  {
    MediaPacket(false, 1, Second())
  }

  // ---------- Splitting it ----------

  lemma FirstSplits()
    ensures Split(FIRST) == [Unit(0, 3, 7)]
  {
    assert PrefixAt(FIRST, 0) == 3;
    assert PrefixAt(FIRST, 3) == 0;
    assert StartCode(FIRST, 4) == (7, 0);
    assert StartCode(FIRST, 3) == (7, 0);
    assert Units(FIRST, 7, 0) == [];
  }

  function WholeNals(): (nals: seq<Nal>)
    ensures |nals| == 2 && nals[0] == Nal(3, [0x67, 0xaa]) && nals[1] == Nal(3, [0x41] + seq(182, _ => 0xff))
  {
    [Nal(3, [0x67, 0xaa]), Nal(3, [0x41] + seq(182, _ => 0xff))]
  }

  lemma WholeIsJoin()
    ensures CleanNals(WholeNals()) && Join(WholeNals()) == FIRST + Second()
  {
    var nals := WholeNals();
    assert nals[1..] == [nals[1]] && [nals[1]][1..] == [];
    assert Join([nals[1]]) == NalBytes(nals[1]) + Join([]) == NalBytes(nals[1]);
    assert Join(nals) == NalBytes(nals[0]) + NalBytes(nals[1]);
  }

  lemma WholeSplits()
    ensures Split(FIRST + Second()) == [Unit(0, 3, 5), Unit(5, 3, 191)]
  {
    var nals := WholeNals();
    WholeIsJoin();
    SplitOfJoin(nals);
    assert nals[1..] == [nals[1]] && [nals[1]][1..] == [];
    assert Places([], 191) == [];
    assert Places([nals[1]], 5) == [Unit(5, 3, 191)] + Places([], 191);
    assert Places(nals, 0) == [Unit(0, 3, 5)] + Places([nals[1]], 5);
  }

  // ---------- Scanning it ----------

  lemma FirstScanned(scan: Scan)
    requires |scan.headers[0]| < 7
    ensures ScanUnits(H264, scan, FIRST, Split(FIRST)).headers == scan.headers[0 := FIRST]
  {
    FirstSplits();
    var u := Unit(0, 3, 7);
    assert FIRST[0..7] == FIRST;
    assert NalType(H264, FIRST[3]) == 7;
    ScanOne(H264, scan, FIRST, u);
  }

  lemma ScanOne(codec: Codec, scan: Scan, data: seq<byte>, u: Unit)
    requires u.at + u.prefix < |data| && u.at <= u.end <= |data|
    ensures ScanUnits(codec, scan, data, [u]) == ScanUnit(codec, scan, data, u)
  {
    hide ScanUnit;
    assert [u][1..] == [];
  }

  /** The sequence parameter set, whole. */
  const SPS: seq<byte> := [0, 0, 1, 0x67, 0xaa]

  lemma WholeScanned(scan: Scan)
    ensures var es := FIRST + Second();
            ScanUnits(H264, scan, es, Split(es)).headers ==
            if |scan.headers[0]| < 5 then scan.headers[0 := SPS] else scan.headers
  {
    var es := FIRST + Second();
    WholeSplits();
    var us := [Unit(0, 3, 5), Unit(5, 3, 191)];
    assert es[0..5] == SPS && es[3] == 0x67 && es[8] == 0x41;
    assert NalType(H264, es[3]) == 7 && NalType(H264, es[8]) == 1;
    var scan1 := ScanUnit(H264, scan, es, us[0]);
    assert us[1..] == [us[1]];
    ScanOne(H264, scan1, es, us[1]);
    assert ScanUnit(H264, scan1, es, us[1]).headers == scan1.headers;
  }

  // ---------- Two runs ----------

  /** An engine in the middle of the access unit: `pes` gathered, `headers` cached, `seen` bytes looked at. */
  predicate Amid(c: Ctx, pes: seq<byte>, headers: Headers, seen: nat)
  {
    && !c.fed.failed && c.fed.framer.pending == []
    && c.fed.st.pid == PID && c.fed.st.codec == H264 && c.fed.st.psi == InitialPsi()
    && c.fed.st.pes == pes && c.fed.st.headers == headers && !c.fed.st.dropping && c.fed.st.previewSize == seen
    && c.fed.st.current[PACKETS] >= 0.0 && (c.fed.st.current[PACKETS] == 0.0 <==> pes == [])
  }

  lemma ResetAmid(cfg: Config, st: Rec)
    requires cfg.videoPid == PID && cfg.codec != H265
    ensures Amid(Ctx(Fed(ResetRec(cfg, st), InitialFramer(), false), 0), [], [[], [], []], 0)
  {
    hide Update, InitialPsi;
    UpdateAlike(Clear(st).(
      psi := InitialPsi(), counters := ZeroCounters(), pid := cfg.videoPid,
      codec := if cfg.codec == Auto then H264 else cfg.codec, dirty := false,
      out := Output(st.out.calls, [], [], [], [])));
  }

  lemma StartsAmid(cfg: Config)
    requires cfg.videoPid == PID && cfg.codec != H265
    ensures Amid(InitialCtx(cfg), [], [[], [], []], 0)
  {
    hide ResetRec, Amid, InitialPsi;
    ResetAmid(cfg, Rec(InitialPsi(), -1, H264, [], false, -1, ZeroValues(), [[], [], []], 0, [], 0, false, 0, ZeroCounters(),
                       Progress(WaitService, 0, 0, 2, 0), Output(0, [], [], [], [])));
  }

  /** One packet of the stream followed, in the middle of an access unit. */
  lemma PacketTaken(cfg: Config, w: World, st: Rec, raw: Raw, pkt: TsPacket)
    requires Parse(raw) == Some(pkt) && pkt.pid == PID == st.pid && st.psi == InitialPsi() && pkt.hasPayload && !st.dropping
    requires pkt.payloadUnitStart ==> st.current[PACKETS] == 0.0
    requires |st.pes| + pkt.payloadSize <= 2048
    ensures var (r, ok) := Packet(cfg, w, st, raw);
            && ok && r.pes == st.pes + Payload(pkt, raw) && r.current[PACKETS] == st.current[PACKETS] + 1.0
            && r.psi == st.psi && r.pid == st.pid && r.codec == st.codec && r.headers == st.headers
            && r.previewSize == st.previewSize && !r.dropping
  {
    hide Parse, Section, Confidence, Clamp, CountCc, CountStart, CountEntropy;
    assert InitialPsi().video == [] && !IsKnownSi(InitialPsi(), PID);
    assert Observe(st.psi, pkt, raw) == st.psi;
    assert Learn(cfg, CountReceived(st), pkt, raw) == CountReceived(st);
    PacketsCounted(st.current, pkt, Payload(pkt, raw), w.entropy(Payload(pkt, raw)), Reference(pkt, st.lastCc));
  }

  lemma PacketsCounted(v: Values, pkt: TsPacket, payload: seq<byte>, entropy: real, last: int)
    ensures CountPacket(v, pkt, payload, entropy, last)[PACKETS] == v[PACKETS] + 1.0
  {
    hide Confidence, Clamp;
  }

  lemma FeedAmid(cfg: Config, w: World, c: Ctx, pes: seq<byte>, headers: Headers, seen: nat, start: bool, cc: nat, payload: seq<byte>)
    requires Amid(c, pes, headers, seen) && cc < 16 && |payload| == PAYLOAD_SIZE
    requires |pes| + |payload| <= 2048 && (start ==> pes == [])
    ensures Amid(FeedCtx(cfg, w, c, MediaPacket(start, cc, payload)), pes + payload, headers, seen)
  {
    hide Parse, MediaPacket, Packet, Update, InitialPsi;
    var raw := MediaPacket(start, cc, payload);
    MediaPacketDecodes(start, cc, payload);
    PacketTaken(cfg, w, c.fed.st, raw, Parse(raw).value);
    Complete(Step(cfg, w), c.fed, raw);
    assert [] + raw == raw;
    UpdateAlike(Packet(cfg, w, c.fed.st, raw).0);
  }

  /** A look while a parameter set is missing shows nothing and cannot fail. */
  lemma LookAmid(cfg: Config, w: World, c: Ctx, pes: seq<byte>, headers: Headers, seen: nat, cached: Headers)
    requires Amid(c, pes, headers, seen) && seen < |pes|
    requires ScanPes(c.fed.st).headers == cached && !HeadersComplete(H264, cached)
    ensures Amid(AnalyzeCtx(cfg, w, c), pes, cached, |pes|)
  {
    hide ScanPes, Update, Store, InitialPsi, HeadersComplete;
    var st := c.fed.st.(previewSize := |pes|);
    PreviewScan(c.fed.st, |pes|);
    var scan := ScanPes(st);
    var f := UnitFeatures(st, scan);
    var st1 := Scanned(st, scan, true);
    StoreAmid(cfg, st1, scan, f);
    var st2 := Store(cfg, st1, scan, f);
    assert Analyze(cfg, w, st2) == (st2, true);
    assert FinishPes(cfg, w, st, true) == (st2, true);
    UpdateAlike(st2);
  }

  lemma PreviewScan(st: Rec, size: nat)
    requires st.current[PACKETS] != 0.0
    ensures ScanPes(st.(previewSize := size)) == ScanPes(st)
  {
  }

  lemma StoreAmid(cfg: Config, st: Rec, scan: Scan, f: Features)
    requires ScanInside(scan)
    ensures var r := Store(cfg, st, scan, f);
            && r.pid == st.pid && r.codec == st.codec && r.psi == st.psi && r.pes == st.pes && r.headers == st.headers
            && r.dropping == st.dropping && r.previewSize == st.previewSize && r.current == st.current
  {
    hide Evict, FindIndex, Others;
  }

  /** Closing the access unit leaves the headers of its scan, whatever the callbacks answer. */
  lemma FinishAmid(cfg: Config, w: World, c: Ctx, pes: seq<byte>, headers: Headers, seen: nat)
    requires Amid(c, pes, headers, seen) && pes != []
    ensures FinishCtx(cfg, w, c).fed.st.headers == ScanPes(c.fed.st).headers
  {
    hide ScanPes, Update, FinishPes, Analyze, InitialPsi;
    var st := c.fed.st;
    CloseHeaders(cfg, w, st, false);
    AnalyzeKeepsPes(cfg, w, FinishPes(cfg, w, st, false).0);
    UpdateAlike(Close(cfg, w, st).0);
  }

  lemma FirstPesScanned(st: Rec)
    requires st.current[PACKETS] != 0.0 && st.codec == H264 && st.pes == PesHeader() + FIRST && st.headers == [[], [], []]
    ensures ScanPes(st).headers == [FIRST, [], []]
  {
    hide ScanUnits, Split, PesHeader;
    ElementaryOf(FIRST);
    var averaged := st.current[PACKET_CONFIDENCE := st.current[PACKET_CONFIDENCE] / st.current[PACKETS]];
    FirstScanned(Scan(st.headers, st.headerVersion, st.dirty, averaged, [], 0, 0));
  }

  lemma WholePesScanned(st: Rec)
    requires st.current[PACKETS] != 0.0 && st.codec == H264 && st.pes == PesHeader() + FIRST + Second()
    ensures ScanPes(st).headers == if |st.headers[0]| < 5 then st.headers[0 := SPS] else st.headers
  {
    hide ScanUnits, Split, PesHeader;
    ElementaryOf(FIRST + Second());
    assert PesHeader() + (FIRST + Second()) == st.pes;
    var averaged := st.current[PACKET_CONFIDENCE := st.current[PACKET_CONFIDENCE] / st.current[PACKETS]];
    WholeScanned(Scan(st.headers, st.headerVersion, st.dirty, averaged, [], 0, 0));
  }

  lemma ElementaryOf(es: seq<byte>)
    ensures Elementary(PesHeader() + es) == es
  {
    var pes := PesHeader() + es;
    assert pes[..9] == [0, 0, 1, 0xe0, 0, 0, 0x80, 0, 168];
    assert pes[0] == 0 && pes[1] == 0 && pes[2] == 1 && pes[8] == 168;
    assert pes[177..] == es;
  }

  lemma AmidFirst(cfg: Config, w: World)
    requires cfg.videoPid == PID && cfg.codec != H265
    ensures Amid(FeedCtx(cfg, w, InitialCtx(cfg), FirstPacket()), PesHeader() + FIRST, [[], [], []], 0)
  {
    hide FeedCtx, PesHeader, MediaPacket, Amid, InitialCtx;
    StartsAmid(cfg);
    FeedAmid(cfg, w, InitialCtx(cfg), [], [[], [], []], 0, true, 0, PesHeader() + FIRST);
    assert [] + (PesHeader() + FIRST) == PesHeader() + FIRST;
  }

  lemma ClosedHeaders(cfg: Config, w: World, c: Ctx, headers: Headers, seen: nat)
    requires Amid(c, PesHeader() + FIRST, headers, seen)
    ensures FinishCtx(cfg, w, FeedCtx(cfg, w, c, SecondPacket())).fed.st.headers ==
            if |headers[0]| < 5 then headers[0 := SPS] else headers
  {
    hide FeedCtx, FinishCtx, PesHeader, MediaPacket, ScanPes;
    var pes := PesHeader() + FIRST + Second();
    FeedAmid(cfg, w, c, PesHeader() + FIRST, headers, seen, false, 1, Second());
    var c1 := FeedCtx(cfg, w, c, SecondPacket());
    FinishAmid(cfg, w, c1, pes, headers, seen);
    WholePesScanned(c1.fed.st);
  }

  lemma LookedHeaders(cfg: Config, w: World, c: Ctx)
    requires Amid(c, PesHeader() + FIRST, [[], [], []], 0)
    ensures Amid(AnalyzeCtx(cfg, w, c), PesHeader() + FIRST, [FIRST, [], []], |PesHeader() + FIRST|)
  {
    hide AnalyzeCtx, PesHeader, ScanPes;
    FirstPesScanned(c.fed.st);
    PpsMissing();
    LookAmid(cfg, w, c, PesHeader() + FIRST, [[], [], []], 0, [FIRST, [], []]);
  }

  lemma PpsMissing()
    ensures !HeadersComplete(H264, [FIRST, [], []])
  {
  }

  lemma RunOn(cfg: Config, w: World, calls: seq<Call>, call: Call)
    ensures Run(cfg, w, calls + [call]) == Apply(cfg, w, Run(cfg, w, calls), call)
  {
    hide Apply;
    assert (calls + [call])[..|calls + [call]| - 1] == calls;
  }

  lemma RunOfFirst(cfg: Config, w: World, data: seq<byte>)
    ensures Run(cfg, w, [Feed(data)]) == FeedCtx(cfg, w, InitialCtx(cfg), data)
  {
    hide FeedCtx, InitialCtx;
    assert [Feed(data)][..0] == [];
  }

  lemma EndPlain(cfg: Config, w: World, calls: seq<Call>, headers: Headers, seen: nat)
    requires Amid(Run(cfg, w, calls), PesHeader() + FIRST, headers, seen)
    ensures Run(cfg, w, calls + [Feed(SecondPacket())] + [Finish]).fed.st.headers ==
            if |headers[0]| < 5 then headers[0 := SPS] else headers
  {
    hide FeedCtx, FinishCtx, SecondPacket, Run, Amid;
    RunOn(cfg, w, calls, Feed(SecondPacket()));
    RunOn(cfg, w, calls + [Feed(SecondPacket())], Finish);
    ClosedHeaders(cfg, w, Run(cfg, w, calls), headers, seen);
  }

  lemma PlainRun(cfg: Config, w: World, first: Call, second: Call)
    requires cfg.videoPid == PID && cfg.codec != H265 && first == Feed(FirstPacket()) && second == Feed(SecondPacket())
    ensures Run(cfg, w, [first] + [second] + [Finish]).fed.st.headers == [SPS, [], []]
  {
    hide FeedCtx, AnalyzeCtx, FirstPacket, SecondPacket, Run, Amid, PesHeader, InitialCtx;
    RunOfFirst(cfg, w, FirstPacket());
    AmidFirst(cfg, w);
    EndPlain(cfg, w, [first], [[], [], []], 0);
    assert [[], [], []][0 := SPS] == [SPS, [], []];
  }

  lemma LookedRun(cfg: Config, w: World, first: Call, second: Call)
    requires cfg.videoPid == PID && cfg.codec != H265 && first == Feed(FirstPacket()) && second == Feed(SecondPacket())
    ensures Run(cfg, w, [first] + [Look] + [second] + [Finish]).fed.st.headers == [FIRST, [], []]
  {
    hide FeedCtx, AnalyzeCtx, FirstPacket, SecondPacket, Run, Amid, PesHeader, InitialCtx;
    RunOfFirst(cfg, w, FirstPacket());
    AmidFirst(cfg, w);
    RunOn(cfg, w, [first], Look);
    LookedHeaders(cfg, w, Run(cfg, w, [first]));
    EndPlain(cfg, w, [first] + [Look], [FIRST, [], []], |PesHeader() + FIRST|);
  }

  /** The same bytes, whatever callbacks and decoder answer: without a look the engine ends with the parameter set, with
      one look between the two packets it ends with the parameter set and two bytes of the next start code. */
  lemma LookCachesCutHeader(cfg: Config, w: World)
    requires cfg.videoPid == PID && cfg.codec != H265
    ensures Run(cfg, w, [Feed(FirstPacket()), Feed(SecondPacket()), Finish]).fed.st.headers == [SPS, [], []]
    ensures Run(cfg, w, [Feed(FirstPacket()), Look, Feed(SecondPacket()), Finish]).fed.st.headers == [FIRST, [], []]
    ensures FIRST == SPS + [0, 0]
  {
    hide FirstPacket, SecondPacket, Run;
    var first, second := Feed(FirstPacket()), Feed(SecondPacket());
    PlainRun(cfg, w, first, second);
    LookedRun(cfg, w, first, second);
    assert [first] + [second] + [Finish] == [first, second, Finish];
    assert [first] + [Look] + [second] + [Finish] == [first, Look, second, Finish];
  }
}
