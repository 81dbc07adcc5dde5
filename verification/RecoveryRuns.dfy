// Whole runs of the recovery engine: bytes and calls in, records, candidates and images out
// (src/recovery.c:211-219, 336-355).
module RecoveryRuns {
  import opened Bytes
  import opened TsPackets
  import opened PsiTables
  import opened AnnexB
  import opened RankModels
  import opened Framing
  import opened RecoverySpec
  import opened RecoveryInvariants

  /** Engine and framer; the framer's dropped bytes are the discarded bytes of the status. */
  datatype Ctx = Ctx(fed: Fed<Rec>, bytesReceived: nat)

  function Step(cfg: Config, w: World): (Rec, Raw) -> (Rec, bool)
  {
    (st: Rec, raw: Raw) => Packet(cfg, w, st, raw)
  }

  function Notify(f: Fed<Rec>): Fed<Rec>
  {
    f.(st := Update(f.st))
  }

  function InitialCtx(cfg: Config): Ctx
  {
    Ctx(Fed(InitialRec(cfg), InitialFramer(), false), 0)
  }

  /** `sf_recovery_feed`. */
  function FeedCtx(cfg: Config, w: World, c: Ctx, data: seq<byte>): Ctx
  {
    if c.fed.failed then c else Ctx(Notify(FeedBytes(Step(cfg, w), c.fed, data)), c.bytesReceived + |data|)
  }

  /** The work of `sf_recovery_analyze`: preview the open PES if it has grown, then analyze. */
  function Preview(cfg: Config, w: World, st: Rec): (Rec, bool)
  {
    var (st1, ok) :=
      if |st.pes| != st.previewSize && !st.dropping then FinishPes(cfg, w, st.(previewSize := |st.pes|), true) else (st, true);
    if ok then Analyze(cfg, w, st1) else (st1, false)
  }

  function AnalyzeCtx(cfg: Config, w: World, c: Ctx): Ctx
  {
    if c.fed.failed then c else
    var (st, ok) := Preview(cfg, w, c.fed.st);
    c.(fed := Fed(Update(st), c.fed.framer, !ok))
  }

  /** The work of `sf_recovery_finish`. */
  function Close(cfg: Config, w: World, st: Rec): (Rec, bool)
  {
    var (st1, ok) := FinishPes(cfg, w, st, false);
    if ok then Analyze(cfg, w, st1) else (st1, false)
  }

  function FinishCtx(cfg: Config, w: World, c: Ctx): Ctx
  {
    if c.fed.failed then c else
    var (st, ok) := Close(cfg, w, c.fed.st);
    var f := c.fed.framer;
    c.(fed := Fed(Update(st), f.(pending := [], bytesDropped := f.bytesDropped + |f.pending|), !ok))
  }

  /** `sf_recovery_reset`. */
  function ResetCtx(cfg: Config, c: Ctx): Ctx
  {
    Ctx(Fed(ResetRec(cfg, c.fed.st), InitialFramer(), false), 0)
  }

  datatype Call = Feed(data: seq<byte>) | Look | Finish | Reset

  function Apply(cfg: Config, w: World, c: Ctx, call: Call): Ctx
  {
    match call
    case Feed(data) => FeedCtx(cfg, w, c, data)
    case Look => AnalyzeCtx(cfg, w, c)
    case Finish => FinishCtx(cfg, w, c)
    case Reset => ResetCtx(cfg, c)
  }

  function Run(cfg: Config, w: World, calls: seq<Call>): Ctx
  {
    if calls == [] then InitialCtx(cfg) else Apply(cfg, w, Run(cfg, w, calls[..|calls| - 1]), calls[|calls| - 1])
  }

  // ---------- Safety of every run ----------

  lemma UpdateSafe(cfg: Config, st: Rec)
    requires Safe(cfg, st)
    ensures Safe(cfg, Update(st))
  {
    hide TotalSize, Rising, ImagesOk;
  }

  lemma ResetSafe(cfg: Config, st: Rec)
    ensures Safe(cfg, ResetRec(cfg, st))
  {
    hide Update;
    var cleared := Clear(st).(
      psi := InitialPsi(), counters := ZeroCounters(), pid := cfg.videoPid,
      codec := if cfg.codec == Auto then H264 else cfg.codec, dirty := false,
      out := Output(st.out.calls, [], [], [], []));
    assert TotalSize([]) == 0;
    UpdateSafe(cfg, cleared);
  }

  lemma {:induction false} FeedSafe(cfg: Config, w: World, c: Fed<Rec>, data: seq<byte>)
    requires Safe(cfg, c.st)
    ensures Safe(cfg, FeedBytes(Step(cfg, w), c, data).st)
  {
    hide Packet, Safe;
    if data != [] {
      var front := data[..|data| - 1];
      FeedSafe(cfg, w, c, front);
      var c1 := FeedBytes(Step(cfg, w), c, front);
      var (framer, packet) := Push(c1.framer, data[|data| - 1]);
      if packet.Some? {
        PacketSafe(cfg, w, c1.st, packet.value);
      }
    }
  }

  lemma PreviewSafe(cfg: Config, w: World, st: Rec)
    requires Safe(cfg, st)
    ensures Safe(cfg, Preview(cfg, w, st).0)
  {
    PreviewSizeSafe(cfg, st);
    hide Safe, FinishPes, Analyze;
    FinishPesSafe(cfg, w, st.(previewSize := |st.pes|), true);
    var (st1, ok) :=
      if |st.pes| != st.previewSize && !st.dropping then FinishPes(cfg, w, st.(previewSize := |st.pes|), true) else (st, true);
    AnalyzeSafe(cfg, w, st1);
  }

  lemma PreviewSizeSafe(cfg: Config, st: Rec)
    requires Safe(cfg, st)
    ensures Safe(cfg, st.(previewSize := |st.pes|))
  {
    hide TotalSize, Rising, ImagesOk;
  }

  lemma CloseSafe(cfg: Config, w: World, st: Rec)
    requires Safe(cfg, st)
    ensures Safe(cfg, Close(cfg, w, st).0)
  {
    hide Safe, FinishPes, Analyze;
    FinishPesSafe(cfg, w, st, false);
    AnalyzeSafe(cfg, w, FinishPes(cfg, w, st, false).0);
  }

  /** In every state reachable by feeds, previews, finishes and resets, whatever the input, the callbacks and the
      decoder: the store is within its bounds and in order, the key slices lie inside their candidates, the header
      cache is bounded, and the images since the last reset or stream change are numbered from one with rising
      scores and sufficient quality. */
  lemma {:induction false} RunSafe(cfg: Config, w: World, calls: seq<Call>)
    ensures Safe(cfg, Run(cfg, w, calls).fed.st)
  {
    hide Safe, Update, Preview, Close, ResetRec;
    if calls == [] {
      ResetSafe(cfg, Rec(InitialPsi(), -1, H264, [], false, -1, ZeroValues(), [[], [], []], 0, [], 0, false, 0, ZeroCounters(),
                         Progress(WaitService, 0, 0, 2, 0), Output(0, [], [], [], [])));
    } else {
      var c := Run(cfg, w, calls[..|calls| - 1]);
      RunSafe(cfg, w, calls[..|calls| - 1]);
      match calls[|calls| - 1] {
        case Feed(data) =>
          FeedSafe(cfg, w, c.fed, data);
          UpdateSafe(cfg, FeedBytes(Step(cfg, w), c.fed, data).st);
        case Look =>
          PreviewSafe(cfg, w, c.fed.st);
          UpdateSafe(cfg, Preview(cfg, w, c.fed.st).0);
        case Finish =>
          CloseSafe(cfg, w, c.fed.st);
          UpdateSafe(cfg, Close(cfg, w, c.fed.st).0);
        case Reset =>
          ResetSafe(cfg, c.fed.st);
      }
    }
  }

  // ---------- Status ----------

  /** One for a parameter set that has been seen. */
  function OneIfSeen(header: seq<byte>): nat
  {
    if header == [] then 0 else 1
  }

  /** What the host reads off phase and percentage. */
  predicate ProgressMeans(st: Rec)
  {
    var p := st.progress;
    && p.headersRequired == (if st.codec == H265 then 3 else 2)
    && p.headersFound == OneIfSeen(st.headers[0]) + OneIfSeen(st.headers[1]) + (if st.codec == H265 then OneIfSeen(st.headers[2]) else 0)
    && p.percent <= 100
    && (p.percent == 100 <==> st.counters.frameVersion > 0)
    && (p.phase == ImageReady <==> st.counters.frameVersion > 0)
    && (p.phase == WaitService ==> st.pid < 0 && p.percent == 0)
    && (p.phase == WaitHeaders ==>
          st.pid >= 0 && !HeadersComplete(st.codec, st.headers) && p.percent == 20 + 40 * p.headersFound / p.headersRequired < 60)
    && (p.phase in {WaitKeyframe, ReadyToDecode, WaitUsableImage} ==> st.pid >= 0 && HeadersComplete(st.codec, st.headers))
    && (p.phase == WaitKeyframe ==> st.candidates == [] && p.percent == 60)
    && (p.phase == ReadyToDecode ==> st.candidates != [] && st.counters.decodeAttempts == 0 && p.percent == 80)
    && (p.phase == WaitUsableImage ==> st.candidates != [] && st.counters.decodeAttempts > 0 && p.percent == 90)
    && (p.headersFound == p.headersRequired <==> HeadersComplete(st.codec, st.headers))
    && p.retainedBytes == st.retained + |st.pes|
  }

  lemma FoundSeen(headers: Headers)
    ensures Found(headers, 2) == OneIfSeen(headers[0]) + OneIfSeen(headers[1])
    ensures Found(headers, 3) == OneIfSeen(headers[0]) + OneIfSeen(headers[1]) + OneIfSeen(headers[2])
  {
    assert Found(headers, 0) == 0;
    assert Found(headers, 1) == Found(headers, 0) + OneIfSeen(headers[0]);
    assert Found(headers, 2) == Found(headers, 1) + OneIfSeen(headers[1]);
  }

  lemma UpdateMeans(st: Rec)
    ensures ProgressMeans(Update(st))
  {
    var required := Required(st.codec);
    var found := Found(st.headers, required);
    FoundSeen(st.headers);
    if found < required {
      assert 40 * found / required < 40 by {
        assert 40 * found <= 40 * required - 40;
      }
    }
  }

  /** At the end of every call the status tells the truth about the state. */
  lemma {:induction false} RunStatus(cfg: Config, w: World, calls: seq<Call>)
    ensures ProgressMeans(Run(cfg, w, calls).fed.st)
  {
    hide Update, Preview, Close, ProgressMeans;
    if calls == [] {
      InitialMeans(cfg);
    } else {
      var c := Run(cfg, w, calls[..|calls| - 1]);
      RunStatus(cfg, w, calls[..|calls| - 1]);
      match calls[|calls| - 1] {
        case Feed(data) =>
          UpdateMeans(FeedBytes(Step(cfg, w), c.fed, data).st);
        case Look =>
          UpdateMeans(Preview(cfg, w, c.fed.st).0);
        case Finish =>
          UpdateMeans(Close(cfg, w, c.fed.st).0);
        case Reset =>
          ResetMeans(cfg, c.fed.st);
      }
    }
  }

  lemma ResetMeans(cfg: Config, st: Rec)
    ensures ProgressMeans(ResetRec(cfg, st))
  {
    hide Update, ProgressMeans;
    UpdateMeans(Clear(st).(
      psi := InitialPsi(), counters := ZeroCounters(), pid := cfg.videoPid,
      codec := if cfg.codec == Auto then H264 else cfg.codec, dirty := false,
      out := Output(st.out.calls, [], [], [], [])));
  }

  lemma InitialMeans(cfg: Config)
    ensures ProgressMeans(InitialRec(cfg))
  {
    hide ResetRec, ProgressMeans;
    ResetMeans(cfg, Rec(InitialPsi(), -1, H264, [], false, -1, ZeroValues(), [[], [], []], 0, [], 0, false, 0, ZeroCounters(),
                        Progress(WaitService, 0, 0, 2, 0), Output(0, [], [], [], [])));
  }

  // ---------- Chunking ----------

  /** States that differ at most in the derived status. */
  predicate Alike(a: Rec, b: Rec)
  {
    b == a.(progress := b.progress)
  }

  predicate AlikeOutcome(a: (Rec, bool), b: (Rec, bool))
  {
    Alike(a.0, b.0) && a.1 == b.1
  }

  lemma AlikeUpdate(a: Rec, b: Rec)
    requires Alike(a, b)
    ensures Update(a) == Update(b)
  {
  }

  lemma AlikeEmit(cfg: Config, w: World, a: Rec, b: Rec, data: seq<byte>, f: Features, voted: bool)
    requires Alike(a, b)
    ensures AlikeOutcome(Emit(cfg, w, a, data, f, voted), Emit(cfg, w, b, data, f, voted))
  {
    hide Decode;
    var shown := a.out.shown + [Shown(data, f, voted, a.headerVersion)];
    var out := a.out.(calls := a.out.calls + 1, shown := shown, numbers := a.out.numbers + [a.out.calls]);
    AlikeDecode(cfg, w, a.(out := out), b.(out := out), data, f);
  }

  lemma AlikeDecode(cfg: Config, w: World, a: Rec, b: Rec, data: seq<byte>, f: Features)
    requires Alike(a, b)
    ensures Alike(Decode(cfg, w, a, data, f), Decode(cfg, w, b, data, f))
  {
    hide Update, Accept;
    var answer := w.decode(a.out.calls, data, f.codec);
    if answer.Some? {
      var c := a.counters;
      var counters := c.(decodeAttempts := c.decodeAttempts + 1, decodedImages := c.decodedImages + 1);
      var out := a.out.(calls := a.out.calls + 1);
      AlikeAccept(a.(counters := counters, out := out), b.(counters := counters, out := out), f.score, answer.value);
    }
  }

  lemma AlikeAccept(a: Rec, b: Rec, score: real, quality: real)
    requires Alike(a, b)
    ensures Alike(Accept(a, score, quality), Accept(b, score, quality))
  {
  }

  lemma {:induction false} AlikeEmitRanked(cfg: Config, w: World, a: Rec, b: Rec, order: seq<nat>, i: nat, emitted: nat)
    requires Alike(a, b) && forall k :: 0 <= k < |order| ==> order[k] < |a.candidates|
    ensures AlikeOutcome(EmitRanked(cfg, w, a, order, i, emitted), EmitRanked(cfg, w, b, order, i, emitted))
    decreases |order| - i
  {
    hide Emit, HeaderBytes;
    if i < |order| && emitted < cfg.maxCandidates {
      var c := a.candidates[order[i]];
      if c.emitted == a.headerVersion {
        AlikeEmitRanked(cfg, w, a, b, order, i + 1, emitted);
      } else {
        var data := HeaderBytes(a.headers, Required(a.codec)) + c.data;
        AlikeEmit(cfg, w, a, b, data, c.features, false);
        var marked := a.candidates[order[i] := c.(emitted := a.headerVersion)];
        AlikeEmitRanked(cfg, w, Emit(cfg, w, a, data, c.features, false).0.(candidates := marked),
                        Emit(cfg, w, b, data, c.features, false).0.(candidates := marked), order, i + 1, emitted + 1);
      }
    }
  }

  lemma {:induction false} AlikeVote(cfg: Config, w: World, a: Rec, b: Rec, order: seq<nat>, i: nat)
    requires Alike(a, b) && i <= |order| && forall k :: 0 <= k < |order| ==> order[k] < |a.candidates|
    ensures AlikeOutcome(Vote(cfg, w, a, order, i), Vote(cfg, w, b, order, i))
    decreases |order| - i
  {
    hide Emit, HeaderBytes, Members, VotedSlice, BucketSeen, Bucket;
    if i < |order| {
      var c := a.candidates[order[i]];
      var members := Members(a.candidates, order[i..], Bucket(c));
      if BucketSeen(a.candidates, order, i, Bucket(c)) || |members| < 2 {
        AlikeVote(cfg, w, a, b, order, i + 1);
      } else {
        var data := HeaderBytes(a.headers, Required(a.codec)) + VotedSlice(cfg, members);
        AlikeEmit(cfg, w, a, b, data, c.features, true);
        if Emit(cfg, w, a, data, c.features, true).1 {
          AlikeVote(cfg, w, Emit(cfg, w, a, data, c.features, true).0, Emit(cfg, w, b, data, c.features, true).0, order, i + 1);
        }
      }
    }
  }

  lemma AlikeAnalyze(cfg: Config, w: World, a: Rec, b: Rec)
    requires Alike(a, b)
    ensures AlikeOutcome(Analyze(cfg, w, a), Analyze(cfg, w, b))
  {
    hide EmitRanked, Vote, Ranked;
    if HeadersComplete(a.codec, a.headers) {
      var order := Ranked(a.candidates);
      AlikeEmitRanked(cfg, w, a, b, order, 0, 0);
      var (a1, ok) := EmitRanked(cfg, w, a, order, 0, 0);
      if ok {
        AlikeVote(cfg, w, a1, EmitRanked(cfg, w, b, order, 0, 0).0, order, 0);
      }
    }
  }

  lemma AlikeScan(a: Rec, b: Rec)
    requires Alike(a, b) && a.current[PACKETS] != 0.0
    ensures ScanPes(a) == ScanPes(b) && UnitFeatures(a, ScanPes(a)) == UnitFeatures(b, ScanPes(b))
  {
  }

  lemma AlikeStore(cfg: Config, a: Rec, b: Rec, scan: Scan, f: Features)
    requires Alike(a, b) && ScanInside(scan)
    ensures Alike(Store(cfg, a, scan, f), Store(cfg, b, scan, f))
  {
    hide Evict, FindIndex, Others;
  }

  lemma AlikeFinishPes(cfg: Config, w: World, a: Rec, b: Rec, partial: bool)
    requires Alike(a, b)
    ensures AlikeOutcome(FinishPes(cfg, w, a, partial), FinishPes(cfg, w, b, partial))
  {
    if a.current[PACKETS] != 0.0 {
      AlikeScan(a, b);
      hide ScanPes, Store, Analyze, UnitFeatures, HeuristicScore;
      var scan := ScanPes(a);
      var f := UnitFeatures(a, scan);
      var a1, b1 := Scanned(a, scan, partial), Scanned(b, scan, partial);
      var a2, b2 := if partial then a1 else Record(a1, f), if partial then b1 else Record(b1, f);
      AlikeStore(cfg, a2, b2, scan, f);
      var a3, b3 := Store(cfg, a2, scan, f), Store(cfg, b2, scan, f);
      var a4, b4 := if partial then a3 else StartUnit(a3), if partial then b3 else StartUnit(b3);
      AlikeAnalyze(cfg, w, a4, b4);
    }
  }

  lemma AlikeLearn(cfg: Config, a: Rec, b: Rec, pkt: TsPacket, raw: Raw)
    requires Alike(a, b) && Parse(raw) == Some(pkt)
    ensures Alike(Learn(cfg, a, pkt, raw), Learn(cfg, b, pkt, raw))
  {
    hide Parse, Observe;
  }

  lemma AlikeReceive(cfg: Config, w: World, a: Rec, b: Rec, pkt: TsPacket, raw: Raw)
    requires Alike(a, b) && Layout(pkt)
    ensures AlikeOutcome(Receive(cfg, w, a, pkt, raw), Receive(cfg, w, b, pkt, raw))
  {
    hide FinishPes, CountPacket;
    AlikeFinishPes(cfg, w, a, b, false);
  }

  lemma AlikePacket(cfg: Config, w: World, a: Rec, b: Rec, raw: Raw)
    requires Alike(a, b)
    ensures AlikeOutcome(Packet(cfg, w, a, raw), Packet(cfg, w, b, raw))
  {
    hide Parse, Learn, Receive;
    if Parse(raw).Some? {
      var pkt := Parse(raw).value;
      AlikeLearn(cfg, CountReceived(a), CountReceived(b), pkt, raw);
      AlikeReceive(cfg, w, Learn(cfg, CountReceived(a), pkt, raw), Learn(cfg, CountReceived(b), pkt, raw), pkt, raw);
    }
  }

  predicate AlikeFed(a: Fed<Rec>, b: Fed<Rec>)
  {
    Alike(a.st, b.st) && a.framer == b.framer && a.failed == b.failed
  }

  lemma {:induction false} AlikeFeed(cfg: Config, w: World, a: Fed<Rec>, b: Fed<Rec>, data: seq<byte>)
    requires AlikeFed(a, b)
    ensures AlikeFed(FeedBytes(Step(cfg, w), a, data), FeedBytes(Step(cfg, w), b, data))
  {
    hide Packet;
    if data != [] {
      var front := data[..|data| - 1];
      AlikeFeed(cfg, w, a, b, front);
      var a1, b1 := FeedBytes(Step(cfg, w), a, front), FeedBytes(Step(cfg, w), b, front);
      var (framer, packet) := Push(a1.framer, data[|data| - 1]);
      if packet.Some? {
        AlikePacket(cfg, w, a1.st, b1.st, packet.value);
      }
    }
  }

  lemma FeedCtxTwice(cfg: Config, w: World, c: Ctx, a: seq<byte>, b: seq<byte>)
    requires !FeedCtx(cfg, w, c, a).fed.failed
    ensures FeedCtx(cfg, w, FeedCtx(cfg, w, c, a), b) == FeedCtx(cfg, w, c, a + b)
  {
    hide Packet, Update, FeedBytes;
    var mid := FeedBytes(Step(cfg, w), c.fed, a);
    FeedChunks(Step(cfg, w), c.fed, a, b);
    UpdateAlike(mid.st);
    AlikeFeed(cfg, w, mid, Notify(mid), b);
    AlikeUpdate(FeedBytes(Step(cfg, w), mid, b).st, FeedBytes(Step(cfg, w), Notify(mid), b).st);
  }

  /** Feeding a list of chunks, one call each. */
  function FeedCtxAll(cfg: Config, w: World, c: Ctx, chunks: seq<seq<byte>>): Ctx
  {
    if chunks == [] then c else FeedCtx(cfg, w, FeedCtxAll(cfg, w, c, chunks[..|chunks| - 1]), chunks[|chunks| - 1])
  }

  /** Two ways of cutting the same bytes end in the same state, as long as no call before the last fails. */
  lemma {:induction false} FeedCtxChunks(cfg: Config, w: World, c: Ctx, chunks: seq<seq<byte>>)
    requires chunks != [] && !FeedCtxAll(cfg, w, c, chunks[..|chunks| - 1]).fed.failed
    ensures FeedCtxAll(cfg, w, c, chunks) == FeedCtx(cfg, w, c, Flatten(chunks))
    decreases |chunks|
  {
    hide FeedCtx;
    var front, last := chunks[..|chunks| - 1], chunks[|chunks| - 1];
    if front == [] {
      assert [] + last == last;
    } else {
      var before := FeedCtxAll(cfg, w, c, front[..|front| - 1]);
      if before.fed.failed {
        FailureStays(cfg, w, before, front[|front| - 1]);
      }
      FeedCtxChunks(cfg, w, c, front);
      FeedCtxTwice(cfg, w, c, Flatten(front), last);
    }
  }

  lemma FailureStays(cfg: Config, w: World, c: Ctx, data: seq<byte>)
    requires c.fed.failed
    ensures FeedCtx(cfg, w, c, data) == c
  {
  }

  lemma UpdateAlike(st: Rec)
    ensures Alike(st, Update(st))
  {
  }
}
