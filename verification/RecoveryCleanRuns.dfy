// What a host is shown over a whole run on an undamaged stream (src/recovery.c:158-163, 211-355).
module RecoveryCleanRuns {
  import opened Bytes
  import opened TsPackets
  import opened PsiTables
  import opened AnnexB
  import opened RankModels
  import opened Framing
  import opened RecoverySpec
  import opened RecoveryInvariants
  import opened RecoveryRuns
  import opened RecoveryStreams

  /** The access unit a packet closes, if it closes one. */
  function SeenByPacket(cfg: Config, st: Rec, raw: Raw): seq<UnitSeen>
  {
    match Parse(raw)
    case None => []
    case Some(pkt) =>
      var st1 := Learn(cfg, CountReceived(st), pkt, raw);
      if pkt.pid == st1.pid && pkt.hasPayload && pkt.payloadUnitStart then SeenNow(st1) else []
  }

  function SeenByFeed(cfg: Config, w: World, c: Fed<Rec>, data: seq<byte>): seq<UnitSeen>
  {
    if data == [] then [] else
    var front := data[..|data| - 1];
    var c1 := FeedBytes(Step(cfg, w), c, front);
    var packet := Push(c1.framer, data[|data| - 1]).1;
    SeenByFeed(cfg, w, c, front) + if !c1.failed && packet.Some? then SeenByPacket(cfg, c1.st, packet.value) else []
  }

  /** A preview scans the open PES if it has grown. */
  function SeenByPreview(st: Rec): seq<UnitSeen>
  {
    if |st.pes| != st.previewSize && !st.dropping then SeenNow(st) else []
  }

  function SeenByCall(cfg: Config, w: World, c: Ctx, call: Call): seq<UnitSeen>
  {
    if c.fed.failed then [] else
    match call
    case Feed(data) => SeenByFeed(cfg, w, c.fed, data)
    case Look => SeenByPreview(c.fed.st)
    case Finish => SeenNow(c.fed.st)
    case Reset => []
  }

  /** The access units that a run has closed or looked at since the last reset, in order. */
  function SeenByRun(cfg: Config, w: World, calls: seq<Call>): seq<UnitSeen>
  {
    if calls == [] || calls[|calls| - 1].Reset? then [] else
    var front := calls[..|calls| - 1];
    SeenByRun(cfg, w, front) + SeenByCall(cfg, w, Run(cfg, w, front), calls[|calls| - 1])
  }

  lemma StartsClean(seen: seq<UnitSeen>, st: Rec)
    requires st.headers == [[], [], []] && st.candidates == [] && AllShownClean(seen, st.out.shown)
    ensures CleanSoFar(seen, st)
  {
  }

  lemma UpdateClean(seen: seq<UnitSeen>, st: Rec)
    requires CleanSoFar(seen, st)
    ensures CleanSoFar(seen, Update(st))
  {
    hide Clean, AllShownClean, Update;
    UpdateAlike(st);
    CleanFrame(seen, st, Update(st), 0);
  }

  /** Following another stream forgets the parameter sets and the candidates of the old one. */
  lemma LearnClean(seen: seq<UnitSeen>, cfg: Config, st: Rec, pkt: TsPacket, raw: Raw)
    requires Parse(raw) == Some(pkt) && CleanSoFar(seen, st)
    ensures CleanSoFar(seen, Learn(cfg, st, pkt, raw))
  {
    hide Parse, Observe, AllShownClean, HeadersClean, CandidatesClean;
    var st1 := Learn(cfg, st, pkt, raw);
    if st1.headers == [[], [], []] && st1.candidates == [] {
      StartsClean(seen, st1);
    } else {
      assert st1.headers == st.headers && st1.candidates == st.candidates && st1.codec == st.codec;
    }
  }

  lemma TakeClean(seen: seq<UnitSeen>, cfg: Config, w: World, st: Rec, pkt: TsPacket, raw: Raw)
    requires Layout(pkt) && CleanSoFar(seen, st)
    ensures CleanSoFar(seen, Take(cfg, w, st, pkt, raw))
  {
    hide CountPacket, AllShownClean, HeadersClean, CandidatesClean;
  }

  lemma CountClean(seen: seq<UnitSeen>, st: Rec)
    requires CleanSoFar(seen, st)
    ensures CleanSoFar(seen, CountReceived(st))
  {
    hide AllShownClean, HeadersClean, CandidatesClean;
  }

  lemma PacketClean(seen: seq<UnitSeen>, cfg: Config, w: World, st: Rec, raw: Raw)
    requires CleanSoFar(seen, st) && AllClean(SeenByPacket(cfg, st, raw))
    ensures CleanSoFar(seen + SeenByPacket(cfg, st, raw), Packet(cfg, w, st, raw).0)
  {
    hide Parse, Learn, FinishPes, Take, CleanSoFar, SeenNow, AllClean;
    assert seen + [] == seen;
    CountClean(seen, st);
    if Parse(raw).Some? {
      var pkt := Parse(raw).value;
      LearnClean(seen, cfg, CountReceived(st), pkt, raw);
      var st1 := Learn(cfg, CountReceived(st), pkt, raw);
      if pkt.pid == st1.pid && pkt.hasPayload {
        if pkt.payloadUnitStart {
          FinishStaysClean(seen, cfg, w, st1, false);
          TakeClean(seen + SeenNow(st1), cfg, w, FinishPes(cfg, w, st1, false).0, pkt, raw);
        } else {
          TakeClean(seen, cfg, w, st1, pkt, raw);
        }
      }
    }
  }

  lemma AllCleanParts(a: seq<UnitSeen>, b: seq<UnitSeen>)
    requires AllClean(a + b)
    ensures AllClean(a) && AllClean(b)
  {
    hide IsCleanStream;
    forall k | 0 <= k < |a| ensures IsCleanStream(a[k].data) {
      assert (a + b)[k] == a[k];
    }
    forall k | 0 <= k < |b| ensures IsCleanStream(b[k].data) {
      assert (a + b)[|a| + k] == b[k];
    }
  }

  lemma {:induction false} FeedClean(seen: seq<UnitSeen>, cfg: Config, w: World, c: Fed<Rec>, data: seq<byte>)
    requires CleanSoFar(seen, c.st) && AllClean(SeenByFeed(cfg, w, c, data))
    ensures CleanSoFar(seen + SeenByFeed(cfg, w, c, data), FeedBytes(Step(cfg, w), c, data).st)
  {
    hide Packet, CleanSoFar, SeenByPacket, AllClean;
    if data == [] {
      assert seen + [] == seen;
    } else {
      var front := data[..|data| - 1];
      var c1 := FeedBytes(Step(cfg, w), c, front);
      var (framer, packet) := Push(c1.framer, data[|data| - 1]);
      var before := SeenByFeed(cfg, w, c, front);
      if !c1.failed && packet.Some? {
        var now := SeenByPacket(cfg, c1.st, packet.value);
        AllCleanParts(before, now);
        FeedClean(seen, cfg, w, c, front);
        PacketClean(seen + before, cfg, w, c1.st, packet.value);
        assert seen + before + now == seen + (before + now);
      } else {
        assert before + [] == before;
        FeedClean(seen, cfg, w, c, front);
      }
    }
  }

  lemma PreviewClean(seen: seq<UnitSeen>, cfg: Config, w: World, st: Rec)
    requires CleanSoFar(seen, st) && AllClean(SeenByPreview(st))
    ensures CleanSoFar(seen + SeenByPreview(st), Preview(cfg, w, st).0)
  {
    var noted := st.(previewSize := |st.pes|);
    assert CleanSoFar(seen, noted) && SeenNow(noted) == SeenNow(st);
    assert seen + [] == seen;
    hide FinishPes, Analyze, CleanSoFar, SeenNow, AllClean;
    if |st.pes| != st.previewSize && !st.dropping {
      FinishStaysClean(seen, cfg, w, noted, true);
      AnalyzeStaysClean(seen + SeenNow(st), cfg, w, FinishPes(cfg, w, noted, true).0);
    } else {
      AnalyzeStaysClean(seen, cfg, w, st);
    }
  }

  lemma CloseClean(seen: seq<UnitSeen>, cfg: Config, w: World, st: Rec)
    requires CleanSoFar(seen, st) && AllClean(SeenNow(st))
    ensures CleanSoFar(seen + SeenNow(st), Close(cfg, w, st).0)
  {
    hide FinishPes, Analyze, CleanSoFar, SeenNow, AllClean;
    FinishStaysClean(seen, cfg, w, st, false);
    AnalyzeStaysClean(seen + SeenNow(st), cfg, w, FinishPes(cfg, w, st, false).0);
  }

  lemma ResetClean(seen: seq<UnitSeen>, cfg: Config, st: Rec)
    ensures CleanSoFar(seen, ResetRec(cfg, st))
  {
    hide Update;
    var cleared := Clear(st).(
      psi := InitialPsi(), counters := ZeroCounters(), pid := cfg.videoPid,
      codec := if cfg.codec == Auto then H264 else cfg.codec, dirty := false,
      out := Output(st.out.calls, [], [], [], []));
    StartsClean(seen, cleared);
    UpdateClean(seen, cleared);
  }

  lemma ApplyClean(seen: seq<UnitSeen>, cfg: Config, w: World, c: Ctx, call: Call)
    requires CleanSoFar(seen, c.fed.st) && AllClean(SeenByCall(cfg, w, c, call)) && !call.Reset?
    ensures CleanSoFar(seen + SeenByCall(cfg, w, c, call), Apply(cfg, w, c, call).fed.st)
  {
    hide CleanSoFar, SeenNow, SeenByFeed, SeenByPreview, AllClean, Update, Preview, Close, ResetRec;
    if c.fed.failed {
      assert seen + [] == seen;
    } else {
      var all := seen + SeenByCall(cfg, w, c, call);
      match call {
        case Feed(data) =>
          FeedClean(seen, cfg, w, c.fed, data);
          UpdateClean(all, FeedBytes(Step(cfg, w), c.fed, data).st);
        case Look =>
          PreviewClean(seen, cfg, w, c.fed.st);
          UpdateClean(all, Preview(cfg, w, c.fed.st).0);
        case Finish =>
          CloseClean(seen, cfg, w, c.fed.st);
          UpdateClean(all, Close(cfg, w, c.fed.st).0);
      }
    }
  }

  /** In every run whose access units since the last reset, as closed or looked at, are streams of clean units, every
      stream shown to the host since then, voted ones apart, splits into the parameter sets of its codec, each a unit of
      these access units and of its kind and in order, followed by exactly the units to be kept of one of these access
      units, the one whose number the stream carries. */
  lemma {:induction false} RunStreams(cfg: Config, w: World, calls: seq<Call>)
    requires AllClean(SeenByRun(cfg, w, calls))
    ensures CleanSoFar(SeenByRun(cfg, w, calls), Run(cfg, w, calls).fed.st)
    ensures forall s :: s in Run(cfg, w, calls).fed.st.out.shown && !s.voted ==>
              exists hs: seq<Nal>, k: nat :: ShownAs(SeenByRun(cfg, w, calls), s, hs, k)
  {
    hide Apply, CleanSoFar, SeenByCall, InitialCtx, AllClean;
    if calls == [] {
      InitialClean(cfg);
    } else {
      var front, call := calls[..|calls| - 1], calls[|calls| - 1];
      if call.Reset? {
        ApplyReset(cfg, w, Run(cfg, w, front));
      } else {
        AllCleanParts(SeenByRun(cfg, w, front), SeenByCall(cfg, w, Run(cfg, w, front), call));
        RunStreams(cfg, w, front);
        ApplyClean(SeenByRun(cfg, w, front), cfg, w, Run(cfg, w, front), call);
      }
    }
    ShownSplit(SeenByRun(cfg, w, calls), Run(cfg, w, calls).fed.st);
  }

  lemma ApplyReset(cfg: Config, w: World, c: Ctx)
    ensures CleanSoFar([], Apply(cfg, w, c, Reset).fed.st)
  {
    hide CleanSoFar, ResetRec;
    ResetClean([], cfg, c.fed.st);
  }

  lemma InitialClean(cfg: Config)
    ensures CleanSoFar([], InitialCtx(cfg).fed.st)
  {
    hide ResetRec, CleanSoFar;
    ResetClean([], cfg, Rec(InitialPsi(), -1, H264, [], false, -1, ZeroValues(), [[], [], []], 0, [], 0, false, 0, ZeroCounters(),
                            Progress(WaitService, 0, 0, 2, 0), Output(0, [], [], [], [])));
  }

  lemma ShownSplit(seen: seq<UnitSeen>, st: Rec)
    requires CleanSoFar(seen, st)
    ensures forall s :: s in st.out.shown && !s.voted ==> exists hs: seq<Nal>, k: nat :: ShownAs(seen, s, hs, k)
  {
    hide Clean, ShownAs;
    forall s | s in st.out.shown && !s.voted ensures exists hs: seq<Nal>, k: nat :: ShownAs(seen, s, hs, k) {
      var i :| 0 <= i < |st.out.shown| && st.out.shown[i] == s;
      assert ShownClean(seen, st.out.shown[i]);
    }
  }
}
