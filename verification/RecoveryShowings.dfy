// No access unit is shown twice for the same parameter sets unless a look has met it open: whole runs
// (src/recovery.c:154-209, 211-283, 336-355).
module RecoveryShowings {
  import opened Bytes
  import opened TsPackets
  import opened PsiTables
  import opened AnnexB
  import opened RankModels
  import opened Framing
  import opened RecoverySpec
  import opened RecoveryInvariants
  import opened RecoveryRuns
  import opened RecoveryMarks

  // ---------- Between units nothing of the next unit is stored ----------

  predicate Idle(st: Rec)
  {
    st.current[PACKETS] == 0.0 ==> AllBelow(st.candidates, st.counters.accessUnits)
  }

  lemma AnalyzeIdle(cfg: Config, w: World, st: Rec)
    requires Idle(st)
    ensures Idle(Analyze(cfg, w, st).0)
  {
    hide Analyze, ImagesOk;
    AnalyzeOk(cfg, w, st);
    var r := Analyze(cfg, w, st).0;
    forall i | 0 <= i < |r.candidates| ensures r.candidates[i].features.index == st.candidates[i].features.index {
      assert r.candidates[i] == st.candidates[i].(emitted := r.candidates[i].emitted);
    }
  }

  lemma FinishIdle(cfg: Config, w: World, st: Rec, partial: bool)
    requires Safe(cfg, st) && Idle(st)
    ensures Idle(FinishPes(cfg, w, st, partial).0)
  {
    if st.current[PACKETS] != 0.0 {
      StoredGains(cfg, st, partial);
      StoredIdle(cfg, st, partial);
      AnalyzeIdle(cfg, w, Stored(cfg, st, partial));
      hide ScanPes, Store, Analyze, Safe, Gains, HeuristicScore, AllBelow;
    }
  }

  lemma StoredIdle(cfg: Config, st: Rec, partial: bool)
    requires st.current[PACKETS] != 0.0 && Gains(cfg, st, Stored(cfg, st, partial), !partial)
    ensures Idle(Stored(cfg, st, partial))
  {
    hide ScanPes, Rising, HeuristicScore, Evict, Others;
  }

  lemma LearnIdle(cfg: Config, st: Rec, pkt: TsPacket, raw: Raw)
    requires Parse(raw) == Some(pkt) && Idle(st)
    ensures Idle(Learn(cfg, CountReceived(st), pkt, raw))
  {
    hide Parse, Observe, Choose;
  }

  lemma TakeIdle(cfg: Config, w: World, st: Rec, pkt: TsPacket, raw: Raw)
    requires Layout(pkt) && Safe(cfg, st)
    ensures Idle(Take(cfg, w, st, pkt, raw))
  {
    hide CountPacket, TotalSize, Rising, ImagesOk, AllBelow;
    var payload := Payload(pkt, raw);
    CountOk(st.current, pkt, payload, w.entropy(payload), Reference(pkt, st.lastCc));
  }

  lemma PacketIdle(cfg: Config, w: World, st: Rec, raw: Raw)
    requires Safe(cfg, st) && Idle(st)
    ensures Idle(Packet(cfg, w, st, raw).0)
  {
    hide Parse, Safe, Learn, FinishPes, Take, AllBelow;
    if Parse(raw).Some? {
      var pkt := Parse(raw).value;
      var st1 := Learn(cfg, CountReceived(st), pkt, raw);
      LearnIdle(cfg, st, pkt, raw);
      CountedSafe(cfg, st);
      LearnSafe(cfg, CountReceived(st), pkt, raw);
      FinishIdle(cfg, w, st1, false);
      FinishPesSafe(cfg, w, st1, false);
      TakeIdle(cfg, w, if pkt.payloadUnitStart then FinishPes(cfg, w, st1, false).0 else st1, pkt, raw);
    }
  }

  lemma {:induction false} FeedIdle(cfg: Config, w: World, c: Fed<Rec>, data: seq<byte>)
    requires Safe(cfg, c.st) && Idle(c.st)
    ensures Idle(FeedBytes(Step(cfg, w), c, data).st)
  {
    hide Packet, Safe, Idle;
    if data != [] {
      var front := data[..|data| - 1];
      FeedIdle(cfg, w, c, front);
      FeedSafe(cfg, w, c, front);
      var c1 := FeedBytes(Step(cfg, w), c, front);
      var (framer, packet) := Push(c1.framer, data[|data| - 1]);
      if packet.Some? {
        PacketIdle(cfg, w, c1.st, packet.value);
      }
    }
  }

  lemma PreviewIdle(cfg: Config, w: World, st: Rec)
    requires Safe(cfg, st) && Idle(st)
    ensures Idle(Preview(cfg, w, st).0)
  {
    var noted := st.(previewSize := |st.pes|);
    PreviewSizeSafe(cfg, st);
    assert Idle(noted);
    hide Safe, Idle, FinishPes, Analyze;
    FinishIdle(cfg, w, noted, true);
    var (st1, ok) := if |st.pes| != st.previewSize && !st.dropping then FinishPes(cfg, w, noted, true) else (st, true);
    AnalyzeIdle(cfg, w, st1);
  }

  lemma CloseIdle(cfg: Config, w: World, st: Rec)
    requires Safe(cfg, st) && Idle(st)
    ensures Idle(Close(cfg, w, st).0)
  {
    hide Safe, Idle, FinishPes, Analyze;
    FinishIdle(cfg, w, st, false);
    AnalyzeIdle(cfg, w, FinishPes(cfg, w, st, false).0);
  }

  lemma UpdateIdle(st: Rec)
    requires Idle(st)
    ensures Idle(Update(st))
  {
  }

  lemma ResetIdle(cfg: Config, st: Rec)
    ensures Idle(ResetRec(cfg, st))
  {
  }

  lemma {:induction false} RunIdle(cfg: Config, w: World, calls: seq<Call>)
    ensures Idle(Run(cfg, w, calls).fed.st)
  {
    hide Safe, Idle, Update, Preview, Close, ResetRec;
    if calls == [] {
      ResetIdle(cfg, Rec(InitialPsi(), -1, H264, [], false, -1, ZeroValues(), [[], [], []], 0, [], 0, false, 0, ZeroCounters(),
                         Progress(WaitService, 0, 0, 2, 0), Output(0, [], [], [], [])));
    } else {
      var c := Run(cfg, w, calls[..|calls| - 1]);
      RunIdle(cfg, w, calls[..|calls| - 1]);
      RunSafe(cfg, w, calls[..|calls| - 1]);
      match calls[|calls| - 1] {
        case Feed(data) =>
          FeedIdle(cfg, w, c.fed, data);
          UpdateIdle(FeedBytes(Step(cfg, w), c.fed, data).st);
        case Look =>
          PreviewIdle(cfg, w, c.fed.st);
          UpdateIdle(Preview(cfg, w, c.fed.st).0);
        case Finish =>
          CloseIdle(cfg, w, c.fed.st);
          UpdateIdle(Close(cfg, w, c.fed.st).0);
        case Reset =>
          ResetIdle(cfg, c.fed.st);
      }
    }
  }

  // ---------- Packets and calls ----------

  /** The tables, this packet included, still choose the stream followed. */
  predicate StaysOn(cfg: Config, st: Rec, raw: Raw)
  {
    Parse(raw).Some? ==>
      var chosen := Choose(cfg, Observe(st.psi, Parse(raw).value, raw).video, 0);
      chosen.Some? ==> chosen.value.pid == st.pid && CodecOf(chosen.value.streamType) == st.codec
  }

  /** Steps that touch neither the store nor what is shown. */
  predicate SameStore(a: Rec, b: Rec)
  {
    && b.candidates == a.candidates && b.headerVersion == a.headerVersion && b.out.shown == a.out.shown
    && b.counters.accessUnits == a.counters.accessUnits
  }

  lemma SameStoreWithin(a: Rec, b: Rec, c: Rec, ok: bool, version: nat, index: nat, looks: nat)
    ensures SameStore(a, b) && Within(b, c, ok, version, index, looks) ==> Within(a, c, ok, version, index, looks)
    ensures Within(a, b, ok, version, index, looks) && SameStore(b, c) ==> Within(a, c, ok, version, index, looks)
  {
    hide Showings;
    assert SameStore(a, b) ==> MayShow(a, index) == MayShow(b, index) && Due(a, index) == Due(b, index);
    assert SameStore(b, c) ==> MayShow(b, index) == MayShow(c, index) && Due(b, index) == Due(c, index);
  }

  lemma LearnSameStore(cfg: Config, st: Rec, pkt: TsPacket, raw: Raw)
    requires Parse(raw) == Some(pkt) && StaysOn(cfg, st, raw)
    ensures SameStore(st, Learn(cfg, CountReceived(st), pkt, raw))
  {
    hide Parse, Observe, Choose;
  }

  lemma TakeSameStore(cfg: Config, w: World, st: Rec, pkt: TsPacket, raw: Raw)
    requires Layout(pkt)
    ensures SameStore(st, Take(cfg, w, st, pkt, raw))
  {
    hide CountPacket;
  }

  lemma CountSameStore(st: Rec)
    ensures SameStore(st, CountReceived(st))
  {
  }

  /** The end of a unit, whatever is fed next. */
  lemma CloseUnitWithin(cfg: Config, w: World, st: Rec, version: nat, index: nat)
    requires Safe(cfg, st)
    ensures var (r, ok) := FinishPes(cfg, w, st, false);
            && Within(st, r, ok, version, index, 0)
            && (Idle(st) && index >= r.counters.accessUnits ==> !Due(r, index))
  {
    hide Safe, FinishPes, Gains, Settles, Within, Due;
    if st.current[PACKETS] == 0.0 {
      NothingOpen(cfg, w, st, index);
      WithinSelf(st, version, index);
    } else {
      var mid := FinishSettles(cfg, w, st, false, version, index);
      var (r, ok) := FinishPes(cfg, w, st, false);
      GainsWithin(cfg, st, mid, true, version, index);
      SettledSame(mid, r, ok, version, index);
      GainsCounts(cfg, st, mid, true);
      if index > st.counters.accessUnits {
        GainsNotDue(cfg, st, mid, true, index);
      }
      SettlesWithin(mid, r, ok, version, index);
      WithinTrans(st, mid, r, ok, version, index, 0, 0);
    }
  }

  lemma NothingOpen(cfg: Config, w: World, st: Rec, index: nat)
    requires st.current[PACKETS] == 0.0
    ensures FinishPes(cfg, w, st, false) == (st, true)
    ensures Idle(st) && index >= st.counters.accessUnits ==> !Due(st, index)
  {
  }

  lemma SettledSame(a: Rec, b: Rec, ok: bool, version: nat, index: nat)
    requires Settles(a, b, ok, version, index)
    ensures b.headerVersion == a.headerVersion && b.counters.accessUnits == a.counters.accessUnits
    ensures Due(b, index) ==> Due(a, index)
  {
  }

  lemma GainsCounts(cfg: Config, st: Rec, mid: Rec, closed: bool)
    requires Gains(cfg, st, mid, closed)
    ensures mid.counters.accessUnits == st.counters.accessUnits + One(closed) && mid.out.shown == st.out.shown
    ensures mid.headerVersion >= st.headerVersion
  {
    hide Rising;
  }

  lemma PacketWithin(cfg: Config, w: World, st: Rec, raw: Raw, version: nat, index: nat)
    requires Safe(cfg, st) && StaysOn(cfg, st, raw)
    ensures var (r, ok) := Packet(cfg, w, st, raw); Within(st, r, ok, version, index, 0)
  {
    hide Parse, Safe, StaysOn, Learn, FinishPes, Take, Within, SameStore, Idle, Due;
    WithinSelf(st, version, index);
    var (r, ok) := Packet(cfg, w, st, raw);
    if Parse(raw).Some? {
      var pkt := Parse(raw).value;
      var st1 := Learn(cfg, CountReceived(st), pkt, raw);
      LearnSameStore(cfg, st, pkt, raw);
      CountedSafe(cfg, st);
      LearnSafe(cfg, CountReceived(st), pkt, raw);
      WithinSelf(st1, version, index);
      CloseUnitWithin(cfg, w, st1, version, index);
      var (st2, ok2) := if pkt.payloadUnitStart then FinishPes(cfg, w, st1, false) else (st1, true);
      TakeSameStore(cfg, w, st2, pkt, raw);
      SameStoreWithin(st1, st2, Take(cfg, w, st2, pkt, raw), true, version, index, 0);
      SameStoreWithin(st, st1, r, ok, version, index, 0);
    } else {
      CountSameStore(st);
      SameStoreWithin(st, st, r, ok, version, index, 0);
    }
  }

  /** No packet of a feed changes the stream. */
  predicate FeedStays(cfg: Config, w: World, c: Fed<Rec>, data: seq<byte>)
  {
    data != [] ==>
      var front := data[..|data| - 1];
      var c1 := FeedBytes(Step(cfg, w), c, front);
      var packet := Push(c1.framer, data[|data| - 1]).1;
      FeedStays(cfg, w, c, front) && (!c1.failed && packet.Some? ==> StaysOn(cfg, c1.st, packet.value))
  }


  lemma {:induction false} FeedWithin(cfg: Config, w: World, c: Fed<Rec>, data: seq<byte>, version: nat, index: nat)
    requires Safe(cfg, c.st) && FeedStays(cfg, w, c, data) && !c.failed
    ensures var r := FeedBytes(Step(cfg, w), c, data); Within(c.st, r.st, !r.failed, version, index, 0)
  {
    hide Packet, Safe, StaysOn, Within;
    if data == [] {
      WithinSelf(c.st, version, index);
    } else {
      var front := data[..|data| - 1];
      FeedWithin(cfg, w, c, front, version, index);
      FeedSafe(cfg, w, c, front);
      var c1 := FeedBytes(Step(cfg, w), c, front);
      var (framer, packet) := Push(c1.framer, data[|data| - 1]);
      if !c1.failed && packet.Some? {
        PacketWithin(cfg, w, c1.st, packet.value, version, index);
        var (r, ok) := Packet(cfg, w, c1.st, packet.value);
        WithinTrans(c.st, c1.st, r, ok, version, index, 0, 0);
      }
    }
  }

  /** No reset and no change of stream. */
  predicate CallStays(cfg: Config, w: World, c: Ctx, call: Call)
  {
    match call
    case Feed(data) => !c.fed.failed ==> FeedStays(cfg, w, c.fed, data)
    case Look => true
    case Finish => true
    case Reset => false
  }


  /** A preview as storing what is open, if anything, and then analyzing. */
  lemma PreviewSettles(cfg: Config, w: World, st: Rec, version: nat, index: nat) returns (mid: Rec)
    requires Safe(cfg, st)
    ensures Gains(cfg, st, mid, false)
    ensures var (r, ok) := Preview(cfg, w, st); Settles(mid, r, ok, version, index)
  {
    hide Safe, FinishPes, Analyze, Settles, Gains;
    var noted := st.(previewSize := |st.pes|);
    PreviewSizeSafe(cfg, st);
    SameGains(cfg, st);
    mid := st;
    SettlesSelf(mid, version, index);
    var (st1, ok1) := if |st.pes| != st.previewSize && !st.dropping then FinishPes(cfg, w, noted, true) else (st, true);
    if |st.pes| != st.previewSize && !st.dropping {
      mid := PartialSettles(cfg, w, st, version, index);
    }
    FinishPesSafe(cfg, w, noted, true);
    if ok1 {
      SafeRises(cfg, st1);
      AnalyzeSettles(cfg, w, st1, version, index);
      var (r, ok) := Analyze(cfg, w, st1);
      SettlesTrans(mid, st1, r, ok, version, index);
    }
  }

  lemma PartialSettles(cfg: Config, w: World, st: Rec, version: nat, index: nat) returns (mid: Rec)
    requires Safe(cfg, st)
    ensures Gains(cfg, st, mid, false)
    ensures var (r, ok) := FinishPes(cfg, w, st.(previewSize := |st.pes|), true); Settles(mid, r, ok, version, index)
  {
    hide Safe, FinishPes, Settles, Gains;
    var noted := st.(previewSize := |st.pes|);
    PreviewSizeSafe(cfg, st);
    if st.current[PACKETS] != 0.0 {
      mid := FinishSettles(cfg, w, noted, true, version, index);
    } else {
      mid := noted;
      SameGains(cfg, noted);
      NothingToPreview(cfg, w, noted);
      SettlesSelf(mid, version, index);
    }
    NotedGains(cfg, st, mid);
  }

  lemma NotedGains(cfg: Config, st: Rec, mid: Rec)
    requires Gains(cfg, st.(previewSize := |st.pes|), mid, false)
    ensures Gains(cfg, st, mid, false)
  {
    hide Rising;
  }

  lemma NothingToPreview(cfg: Config, w: World, st: Rec)
    requires st.current[PACKETS] == 0.0
    ensures FinishPes(cfg, w, st, true) == (st, true)
  {
  }

  lemma PreviewWithin(cfg: Config, w: World, st: Rec, version: nat, index: nat)
    requires Safe(cfg, st)
    ensures var (r, ok) := Preview(cfg, w, st);
            Within(st, r, ok, version, index, One(index == st.counters.accessUnits && version == r.headerVersion))
  {
    hide Safe, Preview, Gains, Settles, Within, Due;
    var (r, ok) := Preview(cfg, w, st);
    var mid := PreviewSettles(cfg, w, st, version, index);
    GainsCounts(cfg, st, mid, false);
    if index == st.counters.accessUnits {
      LookedWithin(st, mid, r, ok, version, index);
    } else {
      GainsWithin(cfg, st, mid, false, version, index);
      if index > st.counters.accessUnits {
        GainsNotDue(cfg, st, mid, false, index);
      }
      SettlesWithin(mid, r, ok, version, index);
      WithinTrans(st, mid, r, ok, version, index, 0, 0);
    }
  }

  lemma SafeRises(cfg: Config, st: Rec)
    requires Safe(cfg, st)
    ensures Rising(st.candidates)
  {
    hide Rising, TotalSize, ImagesOk;
  }


  lemma CloseWithin(cfg: Config, w: World, st: Rec, version: nat, index: nat)
    requires Safe(cfg, st) && Idle(st)
    ensures var (r, ok) := Close(cfg, w, st); Within(st, r, ok, version, index, 0)
  {
    hide Safe, FinishPes, Analyze, Within, Settles, Due, Idle;
    CloseUnitWithin(cfg, w, st, version, index);
    FinishPesSafe(cfg, w, st, false);
    var (st1, ok1) := FinishPes(cfg, w, st, false);
    if ok1 {
      SafeRises(cfg, st1);
      AnalyzeSettles(cfg, w, st1, version, index);
      var (r, ok) := Analyze(cfg, w, st1);
      SettlesWithin(st1, r, ok, version, index);
      WithinTrans(st, st1, r, ok, version, index, 0, 0);
    }
  }

  lemma UpdateSameStore(st: Rec)
    ensures SameStore(st, Update(st))
  {
  }


  /** A look at that unit while it is open, which ends under that header version. */
  predicate LooksAt(cfg: Config, w: World, c: Ctx, call: Call, version: nat, index: nat)
  {
    call.Look? && c.fed.st.counters.accessUnits == index && Apply(cfg, w, c, call).fed.st.headerVersion == version
  }

  lemma CallWithin(cfg: Config, w: World, c: Ctx, call: Call, version: nat, index: nat)
    requires Safe(cfg, c.fed.st) && Idle(c.fed.st) && CallStays(cfg, w, c, call) && !c.fed.failed
    ensures var r := Apply(cfg, w, c, call);
            Within(c.fed.st, r.fed.st, !r.fed.failed, version, index, One(LooksAt(cfg, w, c, call, version, index)))
  {
    hide Safe, Idle, Within, SameStore, Update, Preview, Close, FeedStays;
    var st := c.fed.st;
    match call {
      case Feed(data) =>
        FeedWithin(cfg, w, c.fed, data, version, index);
        var r := FeedBytes(Step(cfg, w), c.fed, data);
        UpdateSameStore(r.st);
        SameStoreWithin(st, r.st, Update(r.st), !r.failed, version, index, 0);
      case Look =>
        PreviewWithin(cfg, w, st, version, index);
        var (r, ok) := Preview(cfg, w, st);
        UpdateSameStore(r);
        UpdateKeepsVersion(r);
        SameStoreWithin(st, r, Update(r), ok, version, index, One(index == st.counters.accessUnits && version == r.headerVersion));
      case Finish =>
        CloseWithin(cfg, w, st, version, index);
        var (r, ok) := Close(cfg, w, st);
        UpdateSameStore(r);
        SameStoreWithin(st, r, Update(r), ok, version, index, 0);
      case Reset =>
    }
  }

  lemma UpdateKeepsVersion(st: Rec)
    ensures Update(st).headerVersion == st.headerVersion
  {
  }

  /** A stretch of a run without a reset and without a change of stream. */
  predicate Stays(cfg: Config, w: World, before: seq<Call>, more: seq<Call>)
  {
    more != [] ==>
      var front := more[..|more| - 1];
      Stays(cfg, w, before, front) && CallStays(cfg, w, Run(cfg, w, before + front), more[|more| - 1])
  }


  /** How many calls of the stretch look at that unit while it is open and end under that header version. */
  function Looks(cfg: Config, w: World, before: seq<Call>, more: seq<Call>, version: nat, index: nat): nat
  {
    if more == [] then 0 else
    var front := more[..|more| - 1];
    Looks(cfg, w, before, front, version, index)
    + One(LooksAt(cfg, w, Run(cfg, w, before + front), more[|more| - 1], version, index))
  }

  /** Over any stretch of a run without a reset or a change of stream, whatever is fed, looked at or finished, the
      showings of an access unit under a header version grow by at most what it could be shown at the beginning, one at
      most, and one for each look at the open unit; what is left of that at the end is what it may be shown later. */
  lemma {:induction false} RunShowings(cfg: Config, w: World, before: seq<Call>, more: seq<Call>, version: nat, index: nat)
    requires Stays(cfg, w, before, more)
    ensures Within(Run(cfg, w, before).fed.st, Run(cfg, w, before + more).fed.st,
                   !Run(cfg, w, before).fed.failed && !Run(cfg, w, before + more).fed.failed, version, index,
                   Looks(cfg, w, before, more, version, index))
  {
    hide Within, Stays, Looks, LooksAt, One, Apply, Run;
    var a := Run(cfg, w, before);
    if more == [] {
      assert before + more == before;
      WithinSelf(a.fed.st, version, index);
      NoLooks(cfg, w, before, version, index);
    } else {
      var front, call := more[..|more| - 1], more[|more| - 1];
      StretchFront(cfg, w, before, more, version, index);
      RunShowings(cfg, w, before, front, version, index);
      var b := Run(cfg, w, before + front);
      var looks := Looks(cfg, w, before, front, version, index);
      var now := One(LooksAt(cfg, w, b, call, version, index));
      if b.fed.failed {
        FailedStays(cfg, w, b, call);
        WithinMore(a.fed.st, b.fed.st, false, version, index, looks, looks + now);
      } else {
        StillHealthy(cfg, w, before, front);
        RunSafe(cfg, w, before + front);
        RunIdle(cfg, w, before + front);
        CallWithin(cfg, w, b, call, version, index);
        var r := Apply(cfg, w, b, call);
        WithinTrans(a.fed.st, b.fed.st, r.fed.st, !r.fed.failed, version, index, looks, now);
      }
    }
  }

  /** The last call of a stretch, taken off. */
  lemma StretchFront(cfg: Config, w: World, before: seq<Call>, more: seq<Call>, version: nat, index: nat)
    requires Stays(cfg, w, before, more) && more != []
    ensures var front, call := more[..|more| - 1], more[|more| - 1];
            var c := Run(cfg, w, before + front);
            && Stays(cfg, w, before, front) && CallStays(cfg, w, c, call)
            && Run(cfg, w, before + more) == Apply(cfg, w, c, call)
            && Looks(cfg, w, before, more, version, index) ==
               Looks(cfg, w, before, front, version, index) + One(LooksAt(cfg, w, c, call, version, index))
  {
    hide CallStays, Apply, LooksAt, One;
    assert (before + more)[..|before + more| - 1] == before + more[..|more| - 1];
  }

  lemma NoLooks(cfg: Config, w: World, before: seq<Call>, version: nat, index: nat)
    ensures Looks(cfg, w, before, [], version, index) == 0
  {
  }

  lemma WithinMore(a: Rec, b: Rec, ok: bool, version: nat, index: nat, m: nat, n: nat)
    requires Within(a, b, ok, version, index, m) && m <= n
    ensures Within(a, b, ok, version, index, n)
  {
  }

  lemma FailedStays(cfg: Config, w: World, c: Ctx, call: Call)
    requires c.fed.failed && CallStays(cfg, w, c, call)
    ensures Apply(cfg, w, c, call) == c
  {
  }

  /** A failed engine stays failed without a reset. */
  lemma {:induction false} StillHealthy(cfg: Config, w: World, before: seq<Call>, more: seq<Call>)
    requires Stays(cfg, w, before, more) && !Run(cfg, w, before + more).fed.failed
    ensures !Run(cfg, w, before).fed.failed
  {
    hide CallStays, Apply;
    if more == [] {
      assert before + more == before;
    } else {
      var front := more[..|more| - 1];
      assert (before + more)[..|before + more| - 1] == before + front;
      if Run(cfg, w, before + front).fed.failed {
        FailedStays(cfg, w, Run(cfg, w, before + front), more[|more| - 1]);
      }
      StillHealthy(cfg, w, before, front);
    }
  }


  // ---------- Never one twice ----------

  /** A ranked stream shown since `from`, of that access unit and under that header version. */
  predicate ShownSince(from: nat, shown: seq<Shown>, p: nat, version: nat, index: nat)
  {
    from <= p < |shown| && Shows(shown[p], version, index)
  }

  lemma {:induction false} ShowingsGrow(shown: seq<Shown>, from: nat, version: nat, index: nat)
    requires from <= |shown|
    ensures Showings(shown[..from], version, index) <= Showings(shown, version, index)
  {
    if from == |shown| {
      assert shown[..from] == shown;
    } else {
      assert shown[..|shown| - 1][..from] == shown[..from];
      ShowingsGrow(shown[..|shown| - 1], from, version, index);
    }
  }

  /** A stream at place `p` counts. */
  lemma ShowingsAt(shown: seq<Shown>, p: nat, version: nat, index: nat)
    requires p < |shown| && Shows(shown[p], version, index)
    ensures Showings(shown, version, index) >= Showings(shown[..p], version, index) + 1
  {
    ShowingsGrow(shown, p + 1, version, index);
    assert shown[..p + 1] == shown[..p] + [shown[p]];
    ShowingsAppend(shown[..p], shown[p], version, index);
  }

  lemma ShowingsCount(shown: seq<Shown>, from: nat, p: nat, q: nat, version: nat, index: nat)
    requires ShownSince(from, shown, p, version, index) && ShownSince(from, shown, q, version, index)
    ensures Showings(shown, version, index) >= Showings(shown[..from], version, index) + if p < q then 2 else 1
  {
    ShowingsGrow(shown[..p], from, version, index);
    assert shown[..p][..from] == shown[..from];
    ShowingsAt(shown, p, version, index);
    if p < q {
      ShowingsAt(shown[..q], p, version, index);
      assert shown[..q][..p] == shown[..p];
      ShowingsAt(shown, q, version, index);
    }
  }

  /** The access units that looks of the stretch meet open. */
  function LookedAt(cfg: Config, w: World, before: seq<Call>, more: seq<Call>): set<nat>
  {
    if more == [] then {} else
    var front := more[..|more| - 1];
    LookedAt(cfg, w, before, front)
    + if more[|more| - 1].Look? then {Run(cfg, w, before + front).fed.st.counters.accessUnits} else {}
  }

  lemma {:induction false} NotLookedAt(cfg: Config, w: World, before: seq<Call>, more: seq<Call>, version: nat, index: nat)
    requires index !in LookedAt(cfg, w, before, more)
    ensures Looks(cfg, w, before, more, version, index) == 0
  {
    hide Apply;
    if more != [] {
      NotLookedAt(cfg, w, before, more[..|more| - 1], version, index);
    }
  }

  /** A look meets no unit closed before the stretch. */
  lemma {:induction false} LookedAtOpen(cfg: Config, w: World, before: seq<Call>, more: seq<Call>, index: nat)
    requires Stays(cfg, w, before, more) && index in LookedAt(cfg, w, before, more)
    ensures index >= Run(cfg, w, before).fed.st.counters.accessUnits
  {
    hide Apply, CallStays;
    var front := more[..|more| - 1];
    if index in LookedAt(cfg, w, before, front) {
      LookedAtOpen(cfg, w, before, front, index);
    } else {
      RunShowings(cfg, w, before, front, 0, 0);
    }
  }

  /** A unit no look of the stretch meets open is shown at most once under each header version, only if it was open or
      waiting at the first moment or the parameter sets are later ones, and then waits no longer unless a callback refused. */
  ghost predicate ShowsOnce(a: Rec, b: Rec, ok: bool, looked: set<nat>)
  {
    var from, shown := |a.out.shown|, b.out.shown;
    && (forall p: nat, q: nat, v: nat, k: nat ::
          ShownSince(from, shown, p, v, k) && ShownSince(from, shown, q, v, k) && p < q ==> k in looked)
    && (forall p: nat, v: nat, k: nat ::
          ShownSince(from, shown, p, v, k) && k !in looked ==> v >= a.headerVersion && (v == a.headerVersion ==> MayShow(a, k)))
    && (ok ==> forall p: nat, k: nat :: ShownSince(from, shown, p, b.headerVersion, k) && k !in looked ==> !MayShow(b, k))
  }

  /** Between any two moments of a run without a reset and without a change of stream, whatever is fed, looked at or
      finished and however often the parameter sets change in between: no access unit is shown twice under one header
      version but those that a look has met while they were open; a unit closed at the first moment is none of these. */
  lemma RunShowsOnce(cfg: Config, w: World, before: seq<Call>, more: seq<Call>)
    requires Stays(cfg, w, before, more)
    ensures var a, b := Run(cfg, w, before), Run(cfg, w, before + more);
            var looked := LookedAt(cfg, w, before, more);
            && a.fed.st.out.shown <= b.fed.st.out.shown
            && ShowsOnce(a.fed.st, b.fed.st, !a.fed.failed && !b.fed.failed, looked)
            && (forall k :: k in looked ==> k >= a.fed.st.counters.accessUnits)
            && (a.fed.st.headerVersion == b.fed.st.headerVersion ==> forall k: nat :: Due(b.fed.st, k) ==> MayShow(a.fed.st, k))
            && Dated(a.fed.st, b.fed.st)
  {
    hide Run, Stays, LookedAt, Looks, Showings, Due;
    var a, b := Run(cfg, w, before).fed.st, Run(cfg, w, before + more).fed.st;
    var ok := !Run(cfg, w, before).fed.failed && !Run(cfg, w, before + more).fed.failed;
    var from, shown := |a.out.shown|, b.out.shown;
    forall k: nat ensures a.headerVersion == b.headerVersion && Due(b, k) ==> MayShow(a, k)
                  ensures a.out.shown <= b.out.shown && Dated(a, b) {
      RunShowings(cfg, w, before, more, 0, k);
    }
    RunShowings(cfg, w, before, more, 0, 0);
    assert shown[..from] == a.out.shown;
    forall p: nat, q: nat, v: nat, k: nat | ShownSince(from, shown, p, v, k) && ShownSince(from, shown, q, v, k) && k !in LookedAt(cfg, w, before, more)
      ensures p >= q && v >= a.headerVersion && (v == a.headerVersion ==> MayShow(a, k))
      ensures ok && v == b.headerVersion ==> !MayShow(b, k)
    {
      RunShowings(cfg, w, before, more, v, k);
      NotLookedAt(cfg, w, before, more, v, k);
      ShowingsCount(shown, from, p, q, v, k);
    }
    forall k | k in LookedAt(cfg, w, before, more) ensures k >= a.counters.accessUnits {
      LookedAtOpen(cfg, w, before, more, k);
    }
  }

  lemma {:induction false} NothingLookedAt(cfg: Config, w: World, before: seq<Call>, more: seq<Call>)
    requires forall i :: 0 <= i < |more| ==> !more[i].Look?
    ensures LookedAt(cfg, w, before, more) == {}
  {
    hide Run;
    if more != [] {
      NothingLookedAt(cfg, w, before, more[..|more| - 1]);
    }
  }

  /** Without looks no access unit at all is shown twice under one header version. */
  lemma WithoutLooksShownOnce(cfg: Config, w: World, before: seq<Call>, more: seq<Call>, p: nat, q: nat)
    requires Stays(cfg, w, before, more) && forall i :: 0 <= i < |more| ==> !more[i].Look?
    requires |Run(cfg, w, before).fed.st.out.shown| <= p < q < |Run(cfg, w, before + more).fed.st.out.shown|
    ensures var s, t := Run(cfg, w, before + more).fed.st.out.shown[p], Run(cfg, w, before + more).fed.st.out.shown[q];
            s.voted || t.voted || s.version != t.version || s.features.index != t.features.index
  {
    hide Run, Stays;
    RunShowsOnce(cfg, w, before, more);
    NothingLookedAt(cfg, w, before, more);
    var from, shown := |Run(cfg, w, before).fed.st.out.shown|, Run(cfg, w, before + more).fed.st.out.shown;
    var s, t := shown[p], shown[q];
    assert !s.voted ==> ShownSince(from, shown, p, s.version, s.features.index);
    assert !t.voted ==> ShownSince(from, shown, q, t.version, t.features.index);
  }
}
