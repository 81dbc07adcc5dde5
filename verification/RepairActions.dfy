// The repair statistics add up (src/scatterfix.c:314-419, src/repair.c:37-111).
module RepairActions {
  import opened Bytes
  import opened TsPackets
  import opened PsiTables
  import opened Statistics
  import opened Continuity
  import opened Framing
  import opened Pipeline
  import opened PipelineSafety
  import R = RepairRuns

  /** Repair actions beyond those that have a counter of their own. */
  function Excess(s: Stats): int
  {
    s.repairActions
    - (s.psiInjections + s.psiCacheRepairs + s.cleanTsPsiCacheRepairs + s.cleanTsNullPackets
       + s.cleanTsMediaCcRewrites + s.cleanTsPcrRewrites + s.cleanTsPtsRewrites)
  }

  /** The mode whose filler packets have no counter: `sanitize` alone. */
  predicate SanitizeOnly(cfg: Config)
  {
    cfg.sanitize && !cfg.cleanTs && !cfg.passthrough
  }

  /** Packets replaced by filler without a counter: those that do not decode and those damaged beyond repair. */
  function Uncounted(cfg: Config, s: Stats): nat
  {
    if SanitizeOnly(cfg) then s.invalidPackets + s.unrepairableTransportErrors else 0
  }

  /** Both sides grow by the same. */
  predicate Explained(cfg: Config, before: Stats, after: Stats)
  {
    Excess(after) - Uncounted(cfg, after) == Excess(before) - Uncounted(cfg, before)
  }

  lemma AdmitExplained(cfg: Config, psi: Psi, stats: Stats, raw: Raw)
    requires !Admit(cfg, psi, stats, raw).Lost?
    ensures Explained(cfg, stats, Admit(cfg, psi, stats, raw).stats)
  {
    hide Parse, HasValidSection, NullPacket, WithCc;
  }

  lemma LearnExplained(cfg: Config, st: State, raw: Raw, pkt: TsPacket)
    requires Parse(raw) == Some(pkt)
    ensures Explained(cfg, st.stats, Learn(st, raw, pkt).stats)
  {
    hide Parse, Observe;
  }

  lemma ShapeExplained(cfg: Config, st: State, raw: Raw, pkt: TsPacket)
    ensures Explained(cfg, st.stats, Filter(cfg, st, raw, pkt).0.stats)
    ensures Explained(cfg, st.stats, Rewrite(cfg, st, raw).0.stats)
  {
    hide Parse, NullPacket, RewritePsiCc, RewriteVideoCc, Allowed;
  }

  lemma {:induction false} TablesExplained(cfg: Config, w: World, st: State, tables: seq<Raw>)
    ensures Explained(cfg, st.stats, WriteTables(cfg, w, st, tables).0.stats)
    decreases |tables|
  {
    if tables != [] {
      TablesExplained(cfg, w, Write(cfg, w, st, tables[0], true).0, tables[1..]);
    }
  }

  lemma DeliverExplained(cfg: Config, w: World, st: State, raw: Raw)
    ensures Explained(cfg, st.stats, Deliver(cfg, w, st, raw).0.stats)
  {
    hide WriteTables, InjectDue, CachedTables;
    TablesExplained(cfg, w, st, CachedTables(st.psi));
  }

  lemma WriteExplained(cfg: Config, w: World, st: State, raw: Raw)
    ensures Explained(cfg, st.stats, Write(cfg, w, st, raw, false).0.stats)
  {
  }

  /** One packet, whatever becomes of it and of the writes. */
  lemma ProcessExplained(cfg: Config, w: World, st: State, raw: Raw)
    requires Inv(cfg, st)
    ensures Explained(cfg, st.stats, Process(cfg, w, st, raw).0.stats)
  {
    hide Admit, Learn, Filter, Rewrite, Deliver, Excess, Uncounted, CacheValid, CacheErrorFree, Screened;
    AdmitScreens(cfg, st.psi, st.stats, raw);
    AdmitExplained(cfg, st.psi, st.stats, raw);
    var r := Admit(cfg, st.psi, st.stats, raw);
    if r.Pass? {
      var st1 := Learn(st.(stats := r.stats), r.raw, r.pkt);
      LearnExplained(cfg, st.(stats := r.stats), r.raw, r.pkt);
      ShapeExplained(cfg, st1, r.raw, r.pkt);
      var (st2, raw2) := Filter(cfg, st1, r.raw, r.pkt);
      ShapeExplained(cfg, st2, raw2, r.pkt);
      var (st3, raw3) := Rewrite(cfg, st2, raw2);
      DeliverExplained(cfg, w, st3, raw3);
    } else if r.Final? {
      WriteExplained(cfg, w, st.(stats := r.stats), r.raw);
    }
  }

  lemma {:induction false} FeedExplained(cfg: Config, w: World, c: R.Ctx, data: seq<byte>)
    requires R.CtxOk(cfg, c)
    ensures Explained(cfg, c.st.stats, FeedBytes(R.Step(cfg, w), c, data).st.stats)
  {
    hide Process, Excess, Uncounted, Inv, LogOk;
    if data != [] {
      var front := data[..|data| - 1];
      FeedExplained(cfg, w, c, front);
      R.FeedAccounts(cfg, w, c, front);
      var c1 := FeedBytes(R.Step(cfg, w), c, front);
      var (framer, packet) := Push(c1.framer, data[|data| - 1]);
      if packet.Some? {
        ProcessExplained(cfg, w, c1.st, packet.value);
      }
    }
  }

  /** The total exceeds the sum of the single counters by exactly the filler packets that have no counter. */
  predicate Exact(cfg: Config, s: Stats)
  {
    Excess(s) == Uncounted(cfg, s)
  }

  lemma InitialExact(cfg: Config)
    ensures Exact(cfg, R.InitialCtx().st.stats)
  {
    hide R.InitialCtx, InitialState, InitialStats, Excess, Uncounted;
    R.InitialParts();
    NoActions(R.InitialCtx().st.stats);
    NoFillers(cfg, R.InitialCtx().st.stats);
  }

  lemma NoActions(s: Stats)
    requires s == InitialStats()
    ensures Excess(s) == 0
  {
  }

  lemma NoFillers(cfg: Config, s: Stats)
    requires s == InitialStats()
    ensures Uncounted(cfg, s) == 0
  {
  }

  lemma FinishExact(cfg: Config, c: R.Ctx)
    requires Exact(cfg, c.st.stats)
    ensures Exact(cfg, R.FinishCtx(c).st.stats) && Exact(cfg, R.ResetCtx(c).st.stats)
  {
  }

  lemma ApplyExact(cfg: Config, w: World, c: R.Ctx, call: R.Call)
    requires R.CtxOk(cfg, c) && Exact(cfg, c.st.stats)
    ensures Exact(cfg, R.Apply(cfg, w, c, call).st.stats)
  {
    hide Excess, Uncounted, FeedBytes, R.FinishCtx, R.ResetCtx, R.CtxOk;
    FinishExact(cfg, c);
    if call.Feed? {
      FeedExplained(cfg, w, c, call.data);
    }
  }

  /** On every run, with refused writes and resets: the total of repair actions exceeds the sum of injections, cache
      repairs, counted filler packets and rewrites by exactly the filler packets that have no counter, which only
      `sanitize` without cleaning mode makes. */
  lemma {:induction false} RunExplained(cfg: Config, w: World, calls: seq<R.Call>)
    ensures Exact(cfg, R.Run(cfg, w, calls).st.stats)
  {
    hide Exact, R.Apply, R.CtxOk, R.InitialCtx;
    if calls == [] {
      InitialExact(cfg);
    } else {
      RunExplained(cfg, w, calls[..|calls| - 1]);
      R.RunSafe(cfg, w, calls[..|calls| - 1]);
      ApplyExact(cfg, w, R.Run(cfg, w, calls[..|calls| - 1]), calls[|calls| - 1]);
    }
  }

  /** The total is the sum exactly when `sanitize` alone has not met a packet it had to replace without a counter. */
  lemma TotalAddsUp(cfg: Config, w: World, calls: seq<R.Call>)
    ensures var s := R.Run(cfg, w, calls).st.stats;
            Excess(s) == 0 <==> !SanitizeOnly(cfg) || (s.invalidPackets == 0 && s.unrepairableTransportErrors == 0)
  {
    hide Excess;
    RunExplained(cfg, w, calls);
  }

  /** A packet whose control bits rule it out. */
  function Undecodable(): (raw: Raw)
    ensures Parse(raw).None? && raw[0] == SYNC_BYTE
  {
    [SYNC_BYTE] + seq(PACKET_SIZE - 1, _ => 0)
  }

  /** In that mode one such packet makes the total exceed the sum. */
  lemma TotalExceeds(cfg: Config, w: World)
    requires SanitizeOnly(cfg)
    ensures Excess(R.Run(cfg, w, [R.Feed(Undecodable())]).st.stats) == 1
  {
    hide Parse, NullPacket;
    var calls := [R.Feed(Undecodable())];
    assert calls[..0] == [];
    var c := R.InitialCtx();
    assert R.Run(cfg, w, calls) == FeedBytes(R.Step(cfg, w), c, Undecodable());
    Complete(R.Step(cfg, w), c, Undecodable());
    assert [] + Undecodable() == Undecodable();
    assert R.Run(cfg, w, calls).st == Process(cfg, w, InitialState(), Undecodable()).0;
  }
}
