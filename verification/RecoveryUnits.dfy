// How packets become access units, and access units candidates (src/recovery.c:225-283, 297-335).
module RecoveryUnits {
  import opened Bytes
  import opened TsPackets
  import opened PsiTables
  import opened AnnexB
  import opened RankModels
  import opened Framing
  import opened RecoverySpec
  import opened RecoveryInvariants
  import opened RecoveryRuns
  import opened RecoveryLoss

  // ---------- Gathering a unit ----------

  /** The payloads of a stream, one after the other. */
  function Gathered(pid: int, raws: seq<Raw>): seq<byte>
  {
    if raws == [] then [] else
    (if IsVideoOf(pid, raws[0]) then raws[0][Parse(raws[0]).value.payloadOffset..] else []) + Gathered(pid, raws[1..])
  }

  /** The packet opens a unit of the stream. */
  predicate Opens(pid: int, raw: Raw)
  {
    IsVideoOf(pid, raw) && Parse(raw).value.payloadUnitStart
  }

  /** What is gathered of a unit: all of it, or nothing when it is longer than half the budget. */
  predicate Holds(cfg: Config, st: Rec, unit: seq<byte>)
  {
    if |unit| <= cfg.maxBytes / 2 then st.pes == unit && !st.dropping else st.pes == [] && st.dropping
  }

  lemma PayloadIs(raw: Raw)
    requires Parse(raw).Some? && Parse(raw).value.hasPayload
    ensures Payload(Parse(raw).value, raw) == raw[Parse(raw).value.payloadOffset..]
    ensures |Payload(Parse(raw).value, raw)| <= 184
  {
    var pkt := Parse(raw).value;
    assert pkt.payloadOffset + pkt.payloadSize == PACKET_SIZE;
  }

  lemma TakeGathers(cfg: Config, w: World, st: Rec, raw: Raw, unit: seq<byte>)
    requires Parse(raw).Some? && Parse(raw).value.hasPayload && Holds(cfg, st, unit)
    ensures Holds(cfg, Take(cfg, w, st, Parse(raw).value, raw), unit + raw[Parse(raw).value.payloadOffset..])
  {
    PayloadIs(raw);
    hide Parse, CountPacket, Payload;
  }

  lemma LearnedFrame(cfg: Config, st: Rec, raw: Raw)
    requires Parse(raw).Some? && KeepsStream(cfg, CountReceived(st), raw)
    ensures var r := Learn(cfg, CountReceived(st), Parse(raw).value, raw);
            && r.pes == st.pes && r.dropping == st.dropping && r.pid == st.pid && r.current == st.current
            && r.counters.accessUnits == st.counters.accessUnits
  {
    hide Parse, Learn;
  }

  /** A packet that opens no unit of the stream. */
  lemma PacketGathers(cfg: Config, w: World, st: Rec, raw: Raw, unit: seq<byte>)
    requires KeepsStream(cfg, CountReceived(st), raw) && !Opens(st.pid, raw) && Holds(cfg, st, unit)
    ensures var (r, ok) := Packet(cfg, w, st, raw);
            ok && r.pid == st.pid && Holds(cfg, r, unit + Gathered(st.pid, [raw]))
  {
    OneGathered(st.pid, raw);
    hide Learn, Take, FinishPes, KeepsStream, Gathered;
    if Parse(raw).Some? {
      LearnedFrame(cfg, st, raw);
      var st1 := Learn(cfg, CountReceived(st), Parse(raw).value, raw);
      hide Parse;
      if IsVideoOf(st.pid, raw) {
        TakeGathers(cfg, w, st1, raw, unit);
        TakeSamePid(cfg, w, st1, raw);
      }
    }
    assert unit + [] == unit;
  }

  lemma TakeSamePid(cfg: Config, w: World, st: Rec, raw: Raw)
    requires Parse(raw).Some?
    ensures Take(cfg, w, st, Parse(raw).value, raw).pid == st.pid
  {
    hide Parse, CountPacket;
  }

  lemma OneGathered(pid: int, raw: Raw)
    ensures Gathered(pid, [raw]) == if IsVideoOf(pid, raw) then raw[Parse(raw).value.payloadOffset..] else []
  {
    hide Parse;
    assert [raw][1..] == [];
  }

  lemma GatheredFirst(pid: int, raws: seq<Raw>, unit: seq<byte>)
    requires raws != []
    ensures unit + Gathered(pid, [raws[0]]) + Gathered(pid, raws[1..]) == unit + Gathered(pid, raws)
  {
    hide Parse;
    OneGathered(pid, raws[0]);
    assert Gathered(pid, raws) == Gathered(pid, [raws[0]]) + Gathered(pid, raws[1..]);
  }

  /** No packet changes the stream, and all succeed. */
  lemma {:induction false} RestGathers(cfg: Config, w: World, st: Rec, raws: seq<Raw>, unit: seq<byte>)
    requires Undisturbed(cfg, w, st, raws) && Holds(cfg, st, unit)
    requires forall i :: 0 <= i < |raws| ==> !Opens(st.pid, raws[i])
    ensures var (r, ok) := ProcessAll(Step(cfg, w), st, raws); ok && r.pid == st.pid && Holds(cfg, r, unit + Gathered(st.pid, raws))
    decreases |raws|
  {
    hide Packet, KeepsStream, Opens, Holds, Gathered;
    if raws == [] {
      NothingGathered(st.pid, unit);
    } else {
      PacketGathers(cfg, w, st, raws[0], unit);
      RestGathers(cfg, w, Packet(cfg, w, st, raws[0]).0, raws[1..], unit + Gathered(st.pid, [raws[0]]));
      GatheredFirst(st.pid, raws, unit);
    }
  }

  lemma NothingGathered(pid: int, unit: seq<byte>)
    ensures unit + Gathered(pid, []) == unit
  {
  }

  lemma FinishClears(cfg: Config, w: World, st: Rec)
    requires Safe(cfg, st) && FinishPes(cfg, w, st, false).1
    ensures var r := FinishPes(cfg, w, st, false).0; r.pes == [] && !r.dropping && r.pid == st.pid
  {
    if st.current[PACKETS] != 0.0 {
      hide ScanPes, Store, Analyze, Safe, HeuristicScore;
      var scan := ScanPes(st);
      var f := UnitFeatures(st, scan);
      var st2 := Record(Scanned(st, scan, false), f);
      StoreSamePid(cfg, st2, scan, f);
      AnalyzeSamePes(cfg, w, StartUnit(Store(cfg, st2, scan, f)));
    } else {
      hide TotalSize, Rising, ImagesOk;
    }
  }

  lemma StoreSamePid(cfg: Config, st: Rec, scan: Scan, f: Features)
    requires ScanInside(scan)
    ensures Store(cfg, st, scan, f).pid == st.pid
  {
    hide Evict, FindIndex, Others, RankScore;
  }

  lemma AnalyzeSamePes(cfg: Config, w: World, st: Rec)
    ensures var r := Analyze(cfg, w, st).0; r.pes == st.pes && r.dropping == st.dropping && r.pid == st.pid
  {
    hide Analyze, ImagesOk;
    AnalyzeOk(cfg, w, st);
  }

  /** A packet that opens a unit: the unit before it is closed, and this one holds its payload. */
  lemma OpenGathers(cfg: Config, w: World, st: Rec, raw: Raw)
    requires Safe(cfg, st) && KeepsStream(cfg, CountReceived(st), raw) && Opens(st.pid, raw) && Packet(cfg, w, st, raw).1
    ensures var r := Packet(cfg, w, st, raw).0; r.pid == st.pid && Holds(cfg, r, raw[Parse(raw).value.payloadOffset..])
  {
    var pkt := Parse(raw).value;
    CountedSafe(cfg, st);
    LearnSafe(cfg, CountReceived(st), pkt, raw);
    LearnedFrame(cfg, st, raw);
    hide Parse, Safe, Learn, FinishPes, Take, KeepsStream;
    var st1 := Learn(cfg, CountReceived(st), pkt, raw);
    FinishClears(cfg, w, st1);
    var st2 := FinishPes(cfg, w, st1, false).0;
    assert [] + raw[pkt.payloadOffset..] == raw[pkt.payloadOffset..];
    TakeGathers(cfg, w, st2, raw, []);
    TakeSamePid(cfg, w, st2, raw);
  }

  /** From the packet that opens a unit on, packets of other streams in between or not, the open unit is exactly the payloads
      of its packets, one after the other, or nothing at all once they exceed half the budget. */
  lemma UnitGathered(cfg: Config, w: World, st: Rec, raws: seq<Raw>)
    requires Safe(cfg, st) && raws != [] && Undisturbed(cfg, w, st, raws)
    requires Opens(st.pid, raws[0]) && forall i :: 1 <= i < |raws| ==> !Opens(st.pid, raws[i])
    ensures var (r, ok) := ProcessAll(Step(cfg, w), st, raws); ok && Holds(cfg, r, Gathered(st.pid, raws))
  {
    hide Packet, KeepsStream, Opens, Holds, Gathered, Safe;
    OpenGathers(cfg, w, st, raws[0]);
    OpensIsVideo(st.pid, raws[0]);
    var unit := raws[0][Parse(raws[0]).value.payloadOffset..];
    RestGathers(cfg, w, Packet(cfg, w, st, raws[0]).0, raws[1..], unit);
    OneGathered(st.pid, raws[0]);
    GatheredFirst(st.pid, raws, []);
    assert [] + Gathered(st.pid, [raws[0]]) == unit && [] + Gathered(st.pid, raws) == Gathered(st.pid, raws);
  }

  lemma OpensIsVideo(pid: int, raw: Raw)
    requires Opens(pid, raw)
    ensures IsVideoOf(pid, raw) && Parse(raw).Some? && Parse(raw).value.payloadOffset <= PACKET_SIZE
  {
  }

  // ---------- The elementary stream of a unit ----------

  /** A PES header announces how many bytes follow its first nine; the stream is what comes behind them. */
  lemma PesHeaderSkipped(head: seq<byte>, optional: seq<byte>, es: seq<byte>)
    requires |head| == 9 && head[0] == 0 && head[1] == 0 && head[2] == 1 && head[8] == |optional|
    ensures Elementary(head + optional + es) == es
  {
    var pes := head + optional + es;
    assert pes[..9] == head && pes[9 + |optional|..] == es;
    assert pes[0] == pes[..9][0] && pes[1] == pes[..9][1] && pes[2] == pes[..9][2] && pes[8] == pes[..9][8];
  }

  /** Without a start code in front, or in a unit too short for a header, all of it is the stream; behind a header that
      overruns the unit there is none. */
  lemma NoPesHeader(pes: seq<byte>)
    ensures (|pes| < 9 || pes[..3] != [0, 0, 1]) ==> Elementary(pes) == pes
    ensures |pes| >= 9 && pes[..3] == [0, 0, 1] && 9 + N(pes[8]) > |pes| ==> Elementary(pes) == []
  {
    if |pes| >= 9 {
      assert pes[..3] == [pes[0], pes[1], pes[2]];
    }
  }

  // ---------- Candidates ----------

  /** The candidate carries the rank score of its unit's features. */
  predicate ScoredOne(cfg: Config, c: Candidate)
  {
    c.features.score == RankScore(cfg.model, c.features.values, HeuristicScore(c.features.values))
  }

  predicate Scored(cfg: Config, candidates: seq<Candidate>)
  {
    forall i :: 0 <= i < |candidates| ==> ScoredOne(cfg, candidates[i])
  }

  lemma {:induction false} EvictKeepsSome(candidates: seq<Candidate>, retained: int, size: nat, budget: nat)
    ensures forall c :: c in Evict(candidates, retained, size, budget).0 ==> c in candidates
    decreases |candidates|
  {
    if candidates != [] {
      EvictKeepsSome(candidates[1..], retained - |candidates[0].data|, size, budget);
    }
  }

  lemma KeepScored(cfg: Config, st: Rec, c: Candidate)
    requires Scored(cfg, st.candidates) && ScoredOne(cfg, c)
    ensures Scored(cfg, Keep(cfg, st, c).candidates)
  {
    hide ScoredOne, FindIndex, Evict;
    var (others, freed) := Others(st.candidates, c.features.index);
    EvictKeepsSome(others, st.retained - freed, |c.data|, cfg.maxBytes / 2);
    var kept := Evict(others, st.retained - freed, |c.data|, cfg.maxBytes / 2).0;
    forall i | 0 <= i < |kept| ensures ScoredOne(cfg, kept[i]) {
      assert kept[i] in others;
      assert kept[i] in st.candidates;
    }
  }

  lemma AnalyzeScored(cfg: Config, w: World, st: Rec)
    requires Scored(cfg, st.candidates)
    ensures Scored(cfg, Analyze(cfg, w, st).0.candidates)
  {
    hide Analyze, RankScore, HeuristicScore, ImagesOk;
    AnalyzeOk(cfg, w, st);
  }

  lemma FinishScored(cfg: Config, w: World, st: Rec, partial: bool)
    requires Scored(cfg, st.candidates)
    ensures Scored(cfg, FinishPes(cfg, w, st, partial).0.candidates)
  {
    hide ScanPes, Analyze, RankScore, HeuristicScore, Scored, Keep;
    if st.current[PACKETS] != 0.0 {
      var scan := ScanPes(st);
      var f := UnitFeatures(st, scan);
      var st1 := Scanned(st, scan, partial);
      var st2 := if partial then st1 else Record(st1, f);
      if f.values[HAS_IDR] != 0.0 && !st2.dropping {
        KeepScored(cfg, st2, CandidateRecord(scan.data, scan.keyOffset, scan.keySize,
                                             f.(score := RankScore(cfg.model, f.values, f.score)), 0));
      }
      var st3 := Store(cfg, st2, scan, f);
      AnalyzeScored(cfg, w, if partial then st3 else StartUnit(st3));
    }
  }

  lemma PacketScored(cfg: Config, w: World, st: Rec, raw: Raw)
    requires Scored(cfg, st.candidates)
    ensures Scored(cfg, Packet(cfg, w, st, raw).0.candidates)
  {
    hide Parse, Observe, Choose, FinishPes, CountPacket, ScoredOne;
    if Parse(raw).Some? {
      FinishScored(cfg, w, Learn(cfg, CountReceived(st), Parse(raw).value, raw), false);
    }
  }

  lemma {:induction false} FeedScored(cfg: Config, w: World, c: Fed<Rec>, data: seq<byte>)
    requires Scored(cfg, c.st.candidates)
    ensures Scored(cfg, FeedBytes(Step(cfg, w), c, data).st.candidates)
  {
    hide Packet, Scored;
    if data != [] {
      var front := data[..|data| - 1];
      FeedScored(cfg, w, c, front);
      var c1 := FeedBytes(Step(cfg, w), c, front);
      var (framer, packet) := Push(c1.framer, data[|data| - 1]);
      if packet.Some? {
        PacketScored(cfg, w, c1.st, packet.value);
      }
    }
  }

  lemma PreviewScored(cfg: Config, w: World, st: Rec)
    requires Scored(cfg, st.candidates)
    ensures Scored(cfg, Preview(cfg, w, st).0.candidates)
  {
    hide FinishPes, Analyze, Scored;
    var noted := st.(previewSize := |st.pes|);
    FinishScored(cfg, w, noted, true);
    var (st1, ok) := if |st.pes| != st.previewSize && !st.dropping then FinishPes(cfg, w, noted, true) else (st, true);
    AnalyzeScored(cfg, w, st1);
  }

  lemma CloseScored(cfg: Config, w: World, st: Rec)
    requires Scored(cfg, st.candidates)
    ensures Scored(cfg, Close(cfg, w, st).0.candidates)
  {
    hide FinishPes, Analyze, Scored;
    FinishScored(cfg, w, st, false);
    AnalyzeScored(cfg, w, FinishPes(cfg, w, st, false).0);
  }

  lemma UpdateKeepsStore(st: Rec)
    ensures Update(st).candidates == st.candidates
  {
  }

  lemma ResetEmptiesStore(cfg: Config, st: Rec)
    ensures ResetRec(cfg, st).candidates == []
  {
  }

  /** In every reachable state every candidate carries the rank score of its own features: the model's when one is loaded,
      the heuristic one otherwise. */
  lemma {:induction false} RunScored(cfg: Config, w: World, calls: seq<Call>)
    ensures Scored(cfg, Run(cfg, w, calls).fed.st.candidates)
  {
    hide ScoredOne, Update, Preview, Close, ResetRec;
    if calls == [] {
      ResetEmptiesStore(cfg, Rec(InitialPsi(), -1, H264, [], false, -1, ZeroValues(), [[], [], []], 0, [], 0, false, 0,
                                 ZeroCounters(), Progress(WaitService, 0, 0, 2, 0), Output(0, [], [], [], [])));
    } else {
      var c := Run(cfg, w, calls[..|calls| - 1]);
      RunScored(cfg, w, calls[..|calls| - 1]);
      match calls[|calls| - 1] {
        case Feed(data) =>
          FeedScored(cfg, w, c.fed, data);
          UpdateKeepsStore(FeedBytes(Step(cfg, w), c.fed, data).st);
        case Look =>
          PreviewScored(cfg, w, c.fed.st);
          UpdateKeepsStore(Preview(cfg, w, c.fed.st).0);
        case Finish =>
          CloseScored(cfg, w, c.fed.st);
          UpdateKeepsStore(Close(cfg, w, c.fed.st).0);
        case Reset =>
          ResetEmptiesStore(cfg, c.fed.st);
      }
    }
  }

  /** A candidate of a newer unit drives out older ones only when there are 256 or they fill half the budget with it. */
  lemma KeptTogether(cfg: Config, st: Rec, c: Candidate)
    requires StoreOk(cfg, st.candidates, st.retained, c.features.index)
    requires forall i :: 0 <= i < |st.candidates| ==> st.candidates[i].features.index != c.features.index
    ensures |st.candidates| < 256 && st.retained + |c.data| <= cfg.maxBytes / 2 ==>
              Keep(cfg, st, c).candidates == st.candidates + [c] && Keep(cfg, st, c).retained == st.retained + |c.data|
  {
    NoOthers(st.candidates, c.features.index);
    hide TotalSize, Rising, FindIndex;
  }

  lemma NoOthers(candidates: seq<Candidate>, index: nat)
    requires forall i :: 0 <= i < |candidates| ==> candidates[i].features.index != index
    ensures Others(candidates, index) == (candidates, 0)
  {
  }

  // ---------- What is counted ----------

  predicate Stored(candidates: seq<Candidate>, unit: nat)
  {
    exists i :: 0 <= i < |candidates| && candidates[i].features.index == unit
  }

  /** Closing or previewing a unit: a closed one is counted, a keyframe when its unit is stored for the first time. */
  lemma UnitsCounted(cfg: Config, w: World, st: Rec, partial: bool)
    requires st.current[PACKETS] != 0.0
    ensures var r := FinishPes(cfg, w, st, partial).0.counters;
            && r.accessUnits == st.counters.accessUnits + (if partial then 0 else 1)
            && (partial || w.featuresOk(st.out.calls) ==>
                  r.keyframes == st.counters.keyframes
                                 + if ScanPes(st).values[HAS_IDR] != 0.0 && !st.dropping && !Stored(st.candidates, st.counters.accessUnits)
                                   then 1 else 0)
  {
    hide ScanPes, Analyze, RankScore, HeuristicScore, Keep, ImagesOk;
    var scan := ScanPes(st);
    var f := UnitFeatures(st, scan);
    var st1 := Scanned(st, scan, partial);
    var st2 := if partial then st1 else Record(st1, f);
    KeepCounts(cfg, st2, CandidateRecord(scan.data, scan.keyOffset, scan.keySize, f.(score := RankScore(cfg.model, f.values, f.score)), 0));
    var st3 := Store(cfg, st2, scan, f);
    AnalyzeOk(cfg, w, if partial then st3 else StartUnit(st3));
  }

  lemma KeepCounts(cfg: Config, st: Rec, c: Candidate)
    ensures var r := Keep(cfg, st, c).counters;
            && r.keyframes == st.counters.keyframes + (if Stored(st.candidates, c.features.index) then 0 else 1)
            && r.accessUnits == st.counters.accessUnits
  {
    hide Evict, Others;
  }

  /** A unit given up is counted once. */
  lemma OversizedCounted(cfg: Config, w: World, st: Rec, raw: Raw)
    requires Parse(raw).Some?
    ensures var r := Take(cfg, w, st, Parse(raw).value, raw);
            r.counters == st.counters.(oversizedUnits := st.counters.oversizedUnits + if r.dropping && !st.dropping then 1 else 0)
  {
    hide Parse, CountPacket;
  }
}
