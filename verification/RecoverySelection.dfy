// Which stream the engine follows (src/recovery.c:284-299, 336-355).
module RecoverySelection {
  import opened Bytes
  import opened TsPackets
  import opened PsiTables
  import opened AnnexB
  import opened RankModels
  import opened Framing
  import opened RecoverySpec
  import opened RecoveryInvariants
  import opened RecoveryRuns
  import L = PsiListings

  // ---------- What the configuration asks for ----------

  /** H.264 or H.265, on the PID and of the codec asked for, if any. */
  predicate AskedFor(cfg: Config, s: Stream)
  {
    && (s.streamType == 0x1b || s.streamType == 0x24)
    && (cfg.videoPid >= 0 ==> s.pid == cfg.videoPid)
    && (cfg.codec == H264 ==> s.streamType == 0x1b)
    && (cfg.codec == H265 ==> s.streamType == 0x24)
  }

  /** The first stream listed that is asked for. */
  function FirstAskedFor(cfg: Config, video: seq<Stream>): Option<Stream>
  {
    if video == [] then None else if AskedFor(cfg, video[0]) then Some(video[0]) else FirstAskedFor(cfg, video[1..])
  }

  /** That stream is followed. */
  predicate Follows(cfg: Config, st: Rec)
  {
    match FirstAskedFor(cfg, st.psi.video)
    case None => true
    case Some(s) => st.pid == s.pid && st.codec == if s.streamType == 0x24 then H265 else H264
  }

  lemma {:induction false} ChosenIs(cfg: Config, video: seq<Stream>, i: nat)
    requires i <= |video|
    ensures Choose(cfg, video, i) == FirstAskedFor(cfg, video[i..])
    decreases |video| - i
  {
    if i < |video| {
      ChosenIs(cfg, video, i + 1);
      assert video[i..][0] == video[i] && video[i..][1..] == video[i + 1..];
    }
  }

  // ---------- One packet ----------

  /** Nothing is left of another stream. */
  predicate Forgotten(st: Rec)
  {
    && st.pes == [] && !st.dropping && st.lastCc == -1 && st.current == ZeroValues() && st.previewSize == 0
    && st.headers == [[], [], []] && st.headerVersion == 0 && st.candidates == [] && st.retained == 0
    && st.out.images == [] && st.out.records == [] && st.counters.frameVersion == 0 && st.counters.decodeAttempts == 0
  }

  /** A packet that brings new tables makes the engine follow the first stream asked for, forgetting the other one; if none
      is asked for, and if it is the same, nothing changes. */
  lemma LearnFollows(cfg: Config, st: Rec, pkt: TsPacket, raw: Raw)
    requires Parse(raw) == Some(pkt)
    ensures var r := Learn(cfg, st, pkt, raw);
            && r.psi == Observe(st.psi, pkt, raw) && Follows(cfg, r)
            && (FirstAskedFor(cfg, r.psi.video).None? ==> r == st.(psi := r.psi))
            && (r.pid == st.pid && r.codec == st.codec ==> r == st.(psi := r.psi))
            && (r.pid != st.pid || r.codec != st.codec ==> Forgotten(r))
  {
    hide Parse, Observe, FirstAskedFor, AskedFor, Choose;
    var psi := Observe(st.psi, pkt, raw);
    ChosenIs(cfg, psi.video, 0);
    assert psi.video[0..] == psi.video;
    AskedForCodec(cfg, psi.video);
  }

  lemma AskedForCodec(cfg: Config, video: seq<Stream>)
    ensures var s := FirstAskedFor(cfg, video); s.Some? ==> AskedFor(cfg, s.value) && CodecOf(s.value.streamType) != Auto
    ensures var s := FirstAskedFor(cfg, video); s.Some? ==> (CodecOf(s.value.streamType) == H265 <==> s.value.streamType == 0x24)
  {
  }

  predicate SameStream(a: Rec, b: Rec)
  {
    b.psi == a.psi && b.pid == a.pid && b.codec == a.codec
  }

  lemma FollowsOn(cfg: Config, a: Rec, b: Rec)
    requires Follows(cfg, a) && SameStream(a, b)
    ensures Follows(cfg, b)
  {
  }

  lemma AnalyzeSameStream(cfg: Config, w: World, st: Rec)
    ensures SameStream(st, Analyze(cfg, w, st).0)
  {
    hide Analyze, ImagesOk;
    AnalyzeOk(cfg, w, st);
  }

  lemma StoreSameStream(cfg: Config, st: Rec, scan: Scan, f: Features)
    requires ScanInside(scan)
    ensures SameStream(st, Store(cfg, st, scan, f))
  {
    hide Evict, FindIndex, Others, RankScore;
  }

  lemma FinishSameStream(cfg: Config, w: World, st: Rec, partial: bool)
    ensures SameStream(st, FinishPes(cfg, w, st, partial).0)
  {
    if st.current[PACKETS] != 0.0 {
      hide ScanPes, Store, Analyze, HeuristicScore;
      var scan := ScanPes(st);
      var f := UnitFeatures(st, scan);
      var st1 := Scanned(st, scan, partial);
      var st2 := if partial then st1 else Record(st1, f);
      StoreSameStream(cfg, st2, scan, f);
      var st3 := Store(cfg, st2, scan, f);
      AnalyzeSameStream(cfg, w, if partial then st3 else StartUnit(st3));
    }
  }

  lemma TakeSameStream(cfg: Config, w: World, st: Rec, pkt: TsPacket, raw: Raw)
    requires Layout(pkt)
    ensures SameStream(st, Take(cfg, w, st, pkt, raw))
  {
    hide CountPacket;
  }

  lemma PacketFollows(cfg: Config, w: World, st: Rec, raw: Raw)
    requires Follows(cfg, st)
    ensures Follows(cfg, Packet(cfg, w, st, raw).0)
  {
    hide Parse, Learn, FinishPes, Take, FirstAskedFor;
    FollowsOn(cfg, st, CountReceived(st));
    if Parse(raw).Some? {
      var pkt := Parse(raw).value;
      var st1 := Learn(cfg, CountReceived(st), pkt, raw);
      LearnFollows(cfg, CountReceived(st), pkt, raw);
      FinishSameStream(cfg, w, st1, false);
      var (st2, ok) := if pkt.payloadUnitStart then FinishPes(cfg, w, st1, false) else (st1, true);
      TakeSameStream(cfg, w, st2, pkt, raw);
    }
  }

  // ---------- Runs ----------

  lemma {:induction false} FeedFollows(cfg: Config, w: World, c: Fed<Rec>, data: seq<byte>)
    requires Follows(cfg, c.st)
    ensures Follows(cfg, FeedBytes(Step(cfg, w), c, data).st)
  {
    hide Packet, Follows;
    if data != [] {
      var front := data[..|data| - 1];
      FeedFollows(cfg, w, c, front);
      var c1 := FeedBytes(Step(cfg, w), c, front);
      var (framer, packet) := Push(c1.framer, data[|data| - 1]);
      if packet.Some? {
        PacketFollows(cfg, w, c1.st, packet.value);
      }
    }
  }

  lemma PreviewSameStream(cfg: Config, w: World, st: Rec)
    ensures SameStream(st, Preview(cfg, w, st).0)
  {
    hide FinishPes, Analyze;
    var noted := st.(previewSize := |st.pes|);
    FinishSameStream(cfg, w, noted, true);
    var (st1, ok) := if |st.pes| != st.previewSize && !st.dropping then FinishPes(cfg, w, noted, true) else (st, true);
    AnalyzeSameStream(cfg, w, st1);
  }

  lemma CloseSameStream(cfg: Config, w: World, st: Rec)
    ensures SameStream(st, Close(cfg, w, st).0)
  {
    hide FinishPes, Analyze;
    FinishSameStream(cfg, w, st, false);
    AnalyzeSameStream(cfg, w, FinishPes(cfg, w, st, false).0);
  }

  lemma UpdateSameStream(st: Rec)
    ensures SameStream(st, Update(st))
  {
  }

  lemma ResetFollows(cfg: Config, st: Rec)
    ensures Follows(cfg, ResetRec(cfg, st))
    ensures var r := ResetRec(cfg, st); r.pid == cfg.videoPid && r.codec == (if cfg.codec == H265 then H265 else H264) && Forgotten(r)
  {
  }

  /** In every reachable state the engine follows the first stream the tables list that is asked for: H.264 or H.265, on the
      PID and of the codec configured. */
  lemma {:induction false} RunFollows(cfg: Config, w: World, calls: seq<Call>)
    ensures Follows(cfg, Run(cfg, w, calls).fed.st)
  {
    hide Follows, SameStream, Update, Preview, Close, ResetRec, Forgotten;
    if calls == [] {
      ResetFollows(cfg, Rec(InitialPsi(), -1, H264, [], false, -1, ZeroValues(), [[], [], []], 0, [], 0, false, 0, ZeroCounters(),
                            Progress(WaitService, 0, 0, 2, 0), Output(0, [], [], [], [])));
    } else {
      var c := Run(cfg, w, calls[..|calls| - 1]);
      RunFollows(cfg, w, calls[..|calls| - 1]);
      match calls[|calls| - 1] {
        case Feed(data) =>
          FeedFollows(cfg, w, c.fed, data);
          UpdateSameStream(FeedBytes(Step(cfg, w), c.fed, data).st);
          FollowsOn(cfg, FeedBytes(Step(cfg, w), c.fed, data).st, Update(FeedBytes(Step(cfg, w), c.fed, data).st));
        case Look =>
          PreviewSameStream(cfg, w, c.fed.st);
          FollowsOn(cfg, c.fed.st, Preview(cfg, w, c.fed.st).0);
          UpdateSameStream(Preview(cfg, w, c.fed.st).0);
          FollowsOn(cfg, Preview(cfg, w, c.fed.st).0, Update(Preview(cfg, w, c.fed.st).0));
        case Finish =>
          CloseSameStream(cfg, w, c.fed.st);
          FollowsOn(cfg, c.fed.st, Close(cfg, w, c.fed.st).0);
          UpdateSameStream(Close(cfg, w, c.fed.st).0);
          FollowsOn(cfg, Close(cfg, w, c.fed.st).0, Update(Close(cfg, w, c.fed.st).0));
        case Reset =>
          ResetFollows(cfg, c.fed.st);
      }
    }
  }

  /** After a PMT that lists some streams, that is the first of them asked for. */
  lemma ListingFollowed(cfg: Config, w: World, calls: seq<Call>, psi: Psi, raw: Raw, s: seq<byte>, list: seq<L.Entry>, rest: seq<byte>)
    requires |s| >= 16 && IsPmt(s) && 12 + ReadLength(s, 10) <= |s| - 4 && L.ListsAt(s, 12 + ReadLength(s, 10), list, rest)
    requires Run(cfg, w, calls).fed.st.psi == ParsePmt(psi, raw, s)
    ensures var st, found := Run(cfg, w, calls).fed.st, FirstAskedFor(cfg, L.Capped(L.VideoOf(list)));
            found.Some? ==> st.pid == found.value.pid && st.codec == if found.value.streamType == 0x24 then H265 else H264
  {
    hide Run, IsPmt, ReadLength, L.ListsAt, L.VideoOf, L.Capped, ParsePmt;
    RunFollows(cfg, w, calls);
    L.PmtListing(psi, raw, s, list, rest);
  }
}
