// When tables are injected: periodically by the clock, all that are cached, directly in front of a packet passed on
// (src/repair.c:74-111, src/scatterfix.c:315-419).
module RepairInjections {
  import opened Bytes
  import opened TsPackets
  import opened PsiTables
  import opened Statistics
  import opened Continuity
  import opened Framing
  import opened Pipeline
  import opened PipelineSafety
  import opened PipelineClocks
  import F = RepairFates
  import R = RepairRuns

  // ---------- What a reader of the output sees ----------

  /** The cached tables, PAT, PMT and SDT in this order. */
  function Tables(psi: Psi): seq<Raw>
  {
    (match psi.cachedPat case Some(raw) => [raw] case None => [])
    + (match psi.cachedPmt case Some(raw) => [raw] case None => [])
    + (match psi.cachedSdt case Some(raw) => [raw] case None => [])
  }

  /** How these tables stand in the output in front of packet `number`. */
  function Injections(tables: seq<Raw>, psi: Psi, number: nat): (r: seq<Entry>)
    ensures |r| == |tables|
  {
    seq(|tables|, i requires 0 <= i < |tables| => Entry(tables[i], true, psi, number))
  }

  /** The packet the last injected table stands in front of. */
  function LastInjected(log: seq<Entry>): Option<nat>
  {
    if log == [] then None
    else if log[|log| - 1].injected then Some(log[|log| - 1].number)
    else LastInjected(log[..|log| - 1])
  }

  /** No table has been injected so far, or the interval has elapsed on the clock, a counter of milliseconds in 64 bits.
      A clock that showed zero counts as none. */
  predicate Again(cfg: Config, w: World, log: seq<Entry>, now: nat)
  {
    match LastInjected(log)
    case None => true
    case Some(n) => w.clock(n) == 0 || (now - w.clock(n)) % 0x1_0000_0000_0000_0000 >= cfg.psiIntervalMs
  }

  /** The packet is passed on: it decodes, and is not one to be replaced by filler for its error flag. */
  predicate PassedOn(cfg: Config, psi: Psi, raw: Raw)
  {
    && Parse(raw).Some?
    && (cfg.passthrough || !Parse(raw).value.transportError || F.StandIn(psi, Parse(raw).value.pid).Some?
        || !(cfg.sanitize || cfg.cleanTs))
  }

  lemma PassesAdmission(cfg: Config, psi: Psi, stats: Stats, raw: Raw)
    requires CacheValid(psi) && (Strict(cfg) ==> CacheErrorFree(psi))
    ensures !Admit(cfg, psi, stats, raw).Lost? && (Admit(cfg, psi, stats, raw).Pass? <==> PassedOn(cfg, psi, raw))
  {
    hide Parse, Admit, HasValidSection, F.StandIn, F.IsFiller, F.IsTablePid;
    F.AdmitsExactly(cfg, psi, stats, raw);
  }

  // ---------- The machine keeps in step with its output ----------

  /** The time of the last injection is that of the last table injected. */
  predicate InStep(w: World, st: State)
  {
    st.lastInject == match LastInjected(st.log) case None => 0 case Some(n) => w.clock(n)
  }

  lemma OwnLeavesLast(log: seq<Entry>, e: Entry)
    requires !e.injected
    ensures LastInjected(log + [e]) == LastInjected(log)
  {
    assert (log + [e])[..|log|] == log;
  }

  lemma LastOfInjections(log: seq<Entry>, tables: seq<Raw>, psi: Psi, number: nat)
    requires tables != []
    ensures LastInjected(log + Injections(tables, psi, number)) == Some(number)
  {
  }

  lemma SameTables(psi: Psi)
    ensures CachedTables(psi) == Tables(psi)
  {
  }

  /** Writing tables one after the other. */
  lemma {:induction false} TablesLog(cfg: Config, w: World, st: State, tables: seq<Raw>)
    requires !cfg.dryRun
    ensures var (r, ok) := WriteTables(cfg, w, st, tables);
            var new' := Injections(tables, st.psi, st.stats.packetsRead);
            && st.log <= r.log <= st.log + new' && (ok ==> r.log == st.log + new')
            && r == st.(log := r.log, attempts := r.attempts, stats := st.stats.(packetsWritten := r.stats.packetsWritten))
    decreases |tables|
  {
    if tables != [] {
      var (st1, ok) := Write(cfg, w, st, tables[0], true);
      var new', rest := Injections(tables, st.psi, st.stats.packetsRead), Injections(tables[1..], st.psi, st.stats.packetsRead);
      assert new' == [new'[0]] + rest;
      assert st1.log == st.log + [new'[0]];
      assert st.log + new' == st1.log + rest;
      if ok {
        TablesLog(cfg, w, st1, tables[1..]);
      } else {
        assert st1.log == st.log + new'[..1];
      }
    }
  }

  predicate DueNow(cfg: Config, w: World, st: State)
  {
    cfg.psiIntervalMs != 0 && Tables(st.psi) != [] && Again(cfg, w, st.log, w.clock(st.stats.packetsRead))
  }

  /** An injection happens exactly when one is due, and then puts out all cached tables. */
  lemma InjectLog(cfg: Config, w: World, st: State)
    requires !cfg.dryRun && InStep(w, st)
    ensures var (r, ok) := Inject(cfg, w, st);
            var new' := if DueNow(cfg, w, st) then Injections(Tables(st.psi), st.psi, st.stats.packetsRead) else [];
            && st.log <= r.log <= st.log + new' && (ok ==> r.log == st.log + new' && InStep(w, r))
            && r.psi == st.psi && r.stats.packetsRead == st.stats.packetsRead
  {
    SameTables(st.psi);
    hide CachedTables, Tables, LastInjected;
    assert InjectDue(cfg, w, st) <==> DueNow(cfg, w, st);
    if DueNow(cfg, w, st) {
      TablesLog(cfg, w, st, CachedTables(st.psi));
      LastOfInjections(st.log, CachedTables(st.psi), st.psi, st.stats.packetsRead);
    } else {
      assert st.log + [] == st.log;
    }
  }

  /** What one packet adds to the output: the tables injected, if any, and then the packet. */
  predicate Adds(before: seq<Entry>, after: seq<Entry>, ok: bool, tables: seq<Raw>, psi: Psi, number: nat)
  {
    var new' := Injections(tables, psi, number);
    if ok then
      && |after| == |before| + |tables| + 1 && after[..|after| - 1] == before + new'
      && !after[|after| - 1].injected && after[|after| - 1].number == number && after[|after| - 1].psi == psi
    else
      before <= after && (after <= before + new' || (|after| == |before| + |tables| + 1 && after[..|after| - 1] == before + new'
                                                     && !after[|after| - 1].injected))
  }

  lemma WriteAdds(cfg: Config, w: World, st: State, mid: State, raw: Raw, tables: seq<Raw>)
    requires !cfg.dryRun && mid.log == st.log + Injections(tables, mid.psi, mid.stats.packetsRead) && InStep(w, mid)
    ensures var (r, ok) := Write(cfg, w, mid, raw, false);
            Adds(st.log, r.log, ok, tables, mid.psi, mid.stats.packetsRead) && r.psi == mid.psi && InStep(w, r)
            && r.stats.packetsRead == mid.stats.packetsRead
  {
    hide LastInjected, Injections;
    OwnLeavesLast(mid.log, Entry(raw, false, mid.psi, mid.stats.packetsRead));
  }

  lemma DeliverAdds(cfg: Config, w: World, st: State, raw: Raw)
    requires !cfg.dryRun && InStep(w, st)
    ensures var (r, ok) := Deliver(cfg, w, st, raw);
            var tables := if !cfg.passthrough && DueNow(cfg, w, st) then Tables(st.psi) else [];
            Adds(st.log, r.log, ok, tables, st.psi, st.stats.packetsRead) && r.psi == st.psi && (ok ==> InStep(w, r))
            && r.stats.packetsRead == st.stats.packetsRead
  {
    hide Tables, InStep, DueNow, Inject, Injections, Adds, Write;
    var tables := if !cfg.passthrough && DueNow(cfg, w, st) then Tables(st.psi) else [];
    InjectLog(cfg, w, st);
    NoInjections(st, st.psi);
    var (st1, ok1) := if cfg.passthrough then (st, true) else Inject(cfg, w, st);
    if ok1 {
      WriteAdds(cfg, w, st, st1, raw, tables);
    } else {
      RefusedAdds(st.log, st1.log, tables, st.psi, st.stats.packetsRead);
    }
  }

  lemma NoInjections(st: State, psi: Psi)
    ensures Injections([], psi, st.stats.packetsRead) == [] && st.log + [] == st.log
  {
  }

  lemma RefusedAdds(before: seq<Entry>, after: seq<Entry>, tables: seq<Raw>, psi: Psi, number: nat)
    requires before <= after <= before + Injections(tables, psi, number)
    ensures Adds(before, after, false, tables, psi, number)
  {
  }

  /** Tables go out in front of this packet. */
  predicate Injects(cfg: Config, w: World, st: State, raw: Raw, psi: Psi)
  {
    && PassedOn(cfg, st.psi, raw) && !cfg.passthrough && cfg.psiIntervalMs != 0 && Tables(psi) != []
    && Again(cfg, w, st.log, w.clock(st.stats.packetsRead + 1))
  }

  /** One packet: tables are injected directly in front of it exactly when it is passed on outside passthrough, the
      interval is not zero, some table is cached, this packet's own included, and none was injected for an interval. */
  lemma ProcessInjects(cfg: Config, w: World, st: State, raw: Raw)
    requires Inv(cfg, st) && !cfg.dryRun && InStep(w, st)
    ensures var (r, ok) := Process(cfg, w, st, raw);
            && Adds(st.log, r.log, ok, if Injects(cfg, w, st, raw, r.psi) then Tables(r.psi) else [], r.psi, st.stats.packetsRead + 1)
            && r.stats.packetsRead == st.stats.packetsRead + 1
            && (ok ==> InStep(w, r))
  {
    hide Admit, Tables, Adds, Again, Deliver, Rewrite, Filter, Learn, LastInjected, PassedOn, Write, Injections, CacheValid,
         CacheErrorFree, DueNow, InStep;
    PassesAdmission(cfg, st.psi, st.stats, raw);
    AdmitCounts(cfg, st.psi, st.stats, raw);
    var a := Admit(cfg, st.psi, st.stats, raw);
    var st1 := st.(stats := a.stats);
    SameClock(w, st, st1);
    if a.Final? {
      NoInjections(st1, st1.psi);
      WriteAdds(cfg, w, st1, st1, a.raw, []);
    } else {
      PreparedFrame(cfg, st1, a.raw, a.pkt);
      var (st2, raw2) := Filter(cfg, Learn(st1, a.raw, a.pkt), a.raw, a.pkt);
      var (st3, raw3) := Rewrite(cfg, st2, raw2);
      SameClock(w, st, st3);
      DueIs(cfg, w, st, st3);
      DeliverAdds(cfg, w, st3, raw3);
    }
  }

  lemma SameClock(w: World, a: State, b: State)
    requires InStep(w, a) && b.log == a.log && b.lastInject == a.lastInject
    ensures InStep(w, b)
  {
  }

  lemma DueIs(cfg: Config, w: World, a: State, b: State)
    requires b.log == a.log && b.stats.packetsRead == a.stats.packetsRead + 1
    ensures DueNow(cfg, w, b) <==>
            cfg.psiIntervalMs != 0 && Tables(b.psi) != [] && Again(cfg, w, a.log, w.clock(a.stats.packetsRead + 1))
  {
    hide Tables, Again;
  }

  /** Observers, filter and rewriters put nothing out. */
  lemma PreparedFrame(cfg: Config, st: State, raw: Raw, pkt: TsPacket)
    requires Parse(raw) == Some(pkt)
    ensures var (st2, raw2) := Filter(cfg, Learn(st, raw, pkt), raw, pkt);
            var st3 := Rewrite(cfg, st2, raw2).0;
            st3.log == st.log && st3.lastInject == st.lastInject && st3.stats.packetsRead == st.stats.packetsRead
  {
    hide Learn, Rewrite, Parse, NullPacket, Allowed;
    LearnFrame(st, raw, pkt);
    var (st2, raw2) := Filter(cfg, Learn(st, raw, pkt), raw, pkt);
    RewriteFrame(cfg, st2, raw2);
  }

  // ---------- Runs ----------

  /** The output keeps time: what was injected in front of different packets lies an interval apart on the clock, unless
      the clock showed zero the first time. */
  predicate Spaced(cfg: Config, w: World, log: seq<Entry>)
  {
    forall j :: 0 <= j < |log| && log[j].injected && LastInjected(log[..j]) != Some(log[j].number) ==>
      Again(cfg, w, log[..j], w.clock(log[j].number))
  }

  lemma {:induction false} LastAmong(before: seq<Entry>, tables: seq<Raw>, psi: Psi, number: nat, j: nat)
    requires |before| < j <= |before| + |tables|
    ensures LastInjected((before + Injections(tables, psi, number))[..j]) == Some(number)
  {
  }

  /** A burst of tables keeps time if it was due. */
  lemma BurstSpaced(cfg: Config, w: World, before: seq<Entry>, after: seq<Entry>, tables: seq<Raw>, psi: Psi, number: nat)
    requires Spaced(cfg, w, before) && before <= after <= before + Injections(tables, psi, number)
    requires tables != [] ==> Again(cfg, w, before, w.clock(number))
    ensures Spaced(cfg, w, after)
  {
    hide Again, LastInjected, Injections;
    forall j | 0 <= j < |after| && after[j].injected && LastInjected(after[..j]) != Some(after[j].number)
      ensures Again(cfg, w, after[..j], w.clock(after[j].number))
    {
      if j < |before| {
        assert after[..j] == before[..j] && after[j] == before[j];
      } else {
        BurstAt(before, tables, psi, number, j);
        assert after[j] == (before + Injections(tables, psi, number))[j];
        assert after[..j] == (before + Injections(tables, psi, number))[..j];
        if j == |before| {
          assert after[..j] == before;
        } else {
          LastAmong(before, tables, psi, number, j);
        }
      }
    }
  }

  lemma BurstAt(before: seq<Entry>, tables: seq<Raw>, psi: Psi, number: nat, j: nat)
    requires |before| <= j < |before| + |tables|
    ensures (before + Injections(tables, psi, number))[j].number == number
  {
  }

  lemma OwnSpaced(cfg: Config, w: World, log: seq<Entry>, e: Entry)
    requires Spaced(cfg, w, log) && !e.injected
    ensures Spaced(cfg, w, log + [e])
  {
    hide Again, LastInjected;
    var all := log + [e];
    forall j | 0 <= j < |all| && all[j].injected && LastInjected(all[..j]) != Some(all[j].number)
      ensures Again(cfg, w, all[..j], w.clock(all[j].number))
    {
      assert all[..j] == log[..j] && all[j] == log[j];
    }
  }

  lemma AddsSpaced(cfg: Config, w: World, before: seq<Entry>, after: seq<Entry>, ok: bool, tables: seq<Raw>, psi: Psi, number: nat)
    requires Spaced(cfg, w, before) && Adds(before, after, ok, tables, psi, number)
    requires tables != [] ==> Again(cfg, w, before, w.clock(number))
    ensures Spaced(cfg, w, after)
  {
    hide Spaced, Again, Injections;
    var burst := before + Injections(tables, psi, number);
    if ok || !(after <= burst) {
      BurstSpaced(cfg, w, before, burst, tables, psi, number);
      OwnSpaced(cfg, w, burst, after[|after| - 1]);
      assert after == burst + [after[|after| - 1]];
    } else {
      BurstSpaced(cfg, w, before, after, tables, psi, number);
    }
  }

  /** What holds of every state that has not failed. */
  predicate Keeping(cfg: Config, w: World, c: R.Ctx)
  {
    Spaced(cfg, w, c.st.log) && (!c.failed ==> InStep(w, c.st))
  }

  lemma {:induction false} FeedKeeps(cfg: Config, w: World, c: R.Ctx, data: seq<byte>)
    requires R.CtxOk(cfg, c) && !cfg.dryRun && Keeping(cfg, w, c)
    ensures Keeping(cfg, w, FeedBytes(R.Step(cfg, w), c, data))
  {
    hide Process, Spaced, InStep, Inv, LogOk, Injects, Adds;
    if data != [] {
      var front := data[..|data| - 1];
      FeedKeeps(cfg, w, c, front);
      R.FeedAccounts(cfg, w, c, front);
      var c1 := FeedBytes(R.Step(cfg, w), c, front);
      var (framer, packet) := Push(c1.framer, data[|data| - 1]);
      if !c1.failed && packet.Some? {
        ProcessKeeps(cfg, w, c1.st, packet.value);
      }
    }
  }

  lemma ProcessKeeps(cfg: Config, w: World, st: State, raw: Raw)
    requires Inv(cfg, st) && !cfg.dryRun && InStep(w, st) && Spaced(cfg, w, st.log)
    ensures var (r, ok) := Process(cfg, w, st, raw); Spaced(cfg, w, r.log) && (ok ==> InStep(w, r))
  {
    hide Process, Spaced, InStep, Inv, Adds, Again, PassedOn, Tables;
    ProcessInjects(cfg, w, st, raw);
    var (r, ok) := Process(cfg, w, st, raw);
    AddsSpaced(cfg, w, st.log, r.log, ok, if Injects(cfg, w, st, raw, r.psi) then Tables(r.psi) else [], r.psi, st.stats.packetsRead + 1);
  }

  lemma {:induction false} RunKeeps(cfg: Config, w: World, calls: seq<R.Call>)
    requires !cfg.dryRun
    ensures Keeping(cfg, w, R.Run(cfg, w, calls))
  {
    if calls != [] {
      var c := R.Run(cfg, w, calls[..|calls| - 1]);
      RunKeeps(cfg, w, calls[..|calls| - 1]);
      R.RunSafe(cfg, w, calls[..|calls| - 1]);
      match calls[|calls| - 1]
      case Feed(data) => FeedKeeps(cfg, w, c, data);
      case Finish =>
      case Reset =>
    }
  }

  /** In every run what is injected in front of a packet follows the injection before it, since the last reset, by at
      least the interval on the clock, in 64 bits. */
  lemma RunSpaced(cfg: Config, w: World, calls: seq<R.Call>)
    requires !cfg.dryRun
    ensures Spaced(cfg, w, R.Run(cfg, w, calls).st.log)
  {
    hide Spaced, InStep, R.Run;
    RunKeeps(cfg, w, calls);
  }

  /** In every state a run reaches: a packet passed on outside passthrough has the cached PAT, PMT and SDT directly in front
      of it exactly when one is cached, the interval is not zero and has elapsed since the last injection, or none has
      been since the last reset. */
  lemma RunInjects(cfg: Config, w: World, calls: seq<R.Call>, raw: Raw)
    requires !cfg.dryRun && !R.Run(cfg, w, calls).failed
    ensures var st := R.Run(cfg, w, calls).st;
            var (r, ok) := Process(cfg, w, st, raw);
            Adds(st.log, r.log, ok, if Injects(cfg, w, st, raw, r.psi) then Tables(r.psi) else [], r.psi, st.stats.packetsRead + 1)
  {
    hide Spaced, InStep, R.Run, Process, Adds, Injects, Tables;
    RunKeeps(cfg, w, calls);
    R.RunSafe(cfg, w, calls);
    ProcessInjects(cfg, w, R.Run(cfg, w, calls).st, raw);
  }
}
