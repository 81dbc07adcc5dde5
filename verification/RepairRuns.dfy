// Whole runs of the repair library: bytes in, packets out (src/scatterfix.c:298-312, 421-453).
module RepairRuns {
  import opened Bytes
  import opened TsPackets
  import opened PsiTables
  import opened Statistics
  import opened Timestamps
  import opened Continuity
  import opened Framing
  import opened Pipeline
  import opened PipelineSafety
  import opened PipelineClocks

  type Ctx = Fed<State>

  function InitialCtx(): Ctx
  {
    Fed(InitialState(), InitialFramer(), false)
  }

  lemma InitialParts()
    ensures InitialCtx().st == InitialState() && InitialCtx().framer == InitialFramer() && !InitialCtx().failed
  {
    hide InitialState;
  }

  /** `process_packet` as the framer calls it. */
  function Step(cfg: Config, w: World): (State, Raw) -> (State, bool)
  {
    (st: State, raw: Raw) => Process(cfg, w, st, raw)
  }

  /** `scatterfix_finish`: an unfinished packet is given up. */
  function FinishCtx(c: Ctx): Ctx
  {
    if c.failed || c.framer.pending == [] then c else
    c.(framer := c.framer.(pending := [], bytesDropped := c.framer.bytesDropped + |c.framer.pending|),
       st := c.st.(stats := c.st.stats.(packetsDropped := c.st.stats.packetsDropped + 1)))
  }

  /** `scatterfix_reset`: everything but the statistics starts afresh. */
  function ResetCtx(c: Ctx): Ctx
  {
    Fed(ResetState(c.st), c.framer.(pending := [], skipping := false), false)
  }

  datatype Call = Feed(data: seq<byte>) | Finish | Reset

  function Apply(cfg: Config, w: World, c: Ctx, call: Call): Ctx
  {
    match call
    case Feed(data) => FeedBytes(Step(cfg, w), c, data)
    case Finish => FinishCtx(c)
    case Reset => ResetCtx(c)
  }

  function Run(cfg: Config, w: World, calls: seq<Call>): Ctx
  {
    if calls == [] then InitialCtx() else Apply(cfg, w, Run(cfg, w, calls[..|calls| - 1]), calls[|calls| - 1])
  }

  // ---------- Accounting ----------

  function Accounted(c: Ctx): nat
  {
    PACKET_SIZE * c.st.stats.packetsRead + c.framer.bytesDropped + |c.framer.pending|
  }

  predicate CtxOk(cfg: Config, c: Ctx)
  {
    Inv(cfg, c.st) && LogOk(cfg, c.st.log)
  }

  /** Every byte consumed is accounted for: in a packet, dropped, or pending. */
  lemma {:induction false} FeedAccounts(cfg: Config, w: World, c: Ctx, data: seq<byte>)
    requires CtxOk(cfg, c)
    ensures CtxOk(cfg, FeedBytes(Step(cfg, w), c, data))
    ensures !FeedBytes(Step(cfg, w), c, data).failed ==> Accounted(FeedBytes(Step(cfg, w), c, data)) == Accounted(c) + |data|
  {
    hide Process, Inv, LogOk;
    if data != [] {
      var front := data[..|data| - 1];
      FeedAccounts(cfg, w, c, front);
      var c1 := FeedBytes(Step(cfg, w), c, front);
      var (framer, packet) := Push(c1.framer, data[|data| - 1]);
      if packet.Some? {
        ProcessSafe(cfg, w, c1.st, packet.value);
      }
    }
  }

  ghost predicate AcceptsAll(cfg: Config, w: World)
  {
    cfg.dryRun || forall n: nat :: w.accepts(n)
  }

  lemma {:induction false} TablesSucceed(cfg: Config, w: World, st: State, tables: seq<Raw>)
    requires AcceptsAll(cfg, w)
    ensures WriteTables(cfg, w, st, tables).1
    decreases |tables|
  {
    if tables != [] {
      TablesSucceed(cfg, w, Write(cfg, w, st, tables[0], true).0, tables[1..]);
    }
  }

  lemma InjectSucceeds(cfg: Config, w: World, st: State)
    requires AcceptsAll(cfg, w)
    ensures Inject(cfg, w, st).1
  {
    TablesSucceed(cfg, w, st, CachedTables(st.psi));
  }

  lemma ProcessSucceeds(cfg: Config, w: World, st: State, raw: Raw)
    requires AcceptsAll(cfg, w)
    ensures Process(cfg, w, st, raw).1
  {
    if Filtered(cfg, st, raw).Some? {
      var (st2, raw2) := Filtered(cfg, st, raw).value;
      InjectSucceeds(cfg, w, Rewrite(cfg, st2, raw2).0);
    }
  }

  /** One packet out per packet in, besides the injected tables. */
  predicate Balanced(st: State)
  {
    st.stats.packetsWritten == st.stats.packetsRead + st.stats.psiInjections
  }

  lemma {:induction false} FeedBalanced(cfg: Config, w: World, c: Ctx, data: seq<byte>)
    requires CtxOk(cfg, c) && Balanced(c.st) && !FeedBytes(Step(cfg, w), c, data).failed
    ensures !c.failed && Balanced(FeedBytes(Step(cfg, w), c, data).st)
  {
    hide Process, Inv, LogOk;
    if data != [] {
      var front := data[..|data| - 1];
      FeedBalanced(cfg, w, c, front);
      FeedAccounts(cfg, w, c, front);
      var c1 := FeedBytes(Step(cfg, w), c, front);
      var (framer, packet) := Push(c1.framer, data[|data| - 1]);
      if packet.Some? {
        ProcessSafe(cfg, w, c1.st, packet.value);
      }
    }
  }

  /** No call of the run fails. */
  predicate NeverFails(cfg: Config, w: World, calls: seq<Call>)
  {
    calls != [] ==> NeverFails(cfg, w, calls[..|calls| - 1]) && !Run(cfg, w, calls).failed
  }

  lemma {:induction false} FeedSucceeds(cfg: Config, w: World, c: Ctx, data: seq<byte>)
    requires AcceptsAll(cfg, w) && !c.failed
    ensures !FeedBytes(Step(cfg, w), c, data).failed
  {
    hide Process;
    if data != [] {
      var front := data[..|data| - 1];
      FeedSucceeds(cfg, w, c, front);
      var c1 := FeedBytes(Step(cfg, w), c, front);
      var (framer, packet) := Push(c1.framer, data[|data| - 1]);
      if packet.Some? {
        ProcessSucceeds(cfg, w, c1.st, packet.value);
      }
    }
  }

  /** With a callback that never refuses, or in a dry run, no call fails. */
  lemma {:induction false} AcceptingNeverFails(cfg: Config, w: World, calls: seq<Call>)
    requires AcceptsAll(cfg, w)
    ensures NeverFails(cfg, w, calls)
  {
    if calls != [] {
      AcceptingNeverFails(cfg, w, calls[..|calls| - 1]);
      var c := Run(cfg, w, calls[..|calls| - 1]);
      NeverFailsLast(cfg, w, calls[..|calls| - 1]);
      match calls[|calls| - 1]
      case Feed(data) => FeedSucceeds(cfg, w, c, data);
      case Finish =>
      case Reset =>
    }
  }

  lemma NeverFailsLast(cfg: Config, w: World, calls: seq<Call>)
    requires NeverFails(cfg, w, calls)
    ensures !Run(cfg, w, calls).failed
  {
  }

  // ---------- Theorems about every run ----------

  /** In every reachable state every packet written since the last reset keeps its promises (`EntryOk`):
      it decodes with the error flag clear when damaged packets are replaced; in cleaning mode a packet on a
      table PID carries a sound table of the right kind, and a packet that was not injected is on an allowed PID. */
  lemma {:induction false} RunSafe(cfg: Config, w: World, calls: seq<Call>)
    ensures CtxOk(cfg, Run(cfg, w, calls))
  {
    if calls != [] {
      var c := Run(cfg, w, calls[..|calls| - 1]);
      RunSafe(cfg, w, calls[..|calls| - 1]);
      match calls[|calls| - 1]
      case Feed(data) => FeedAccounts(cfg, w, c, data);
      case Finish =>
      case Reset =>
    }
  }

  /** In no run is a packet lost to the "decode again" checks. */
  lemma RunNeverLoses(cfg: Config, w: World, calls: seq<Call>, raw: Raw)
    ensures var st := Run(cfg, w, calls).st; !Admit(cfg, st.psi, st.stats, raw).Lost?
  {
    RunSafe(cfg, w, calls);
    var st := Run(cfg, w, calls).st;
    AdmitScreens(cfg, st.psi, st.stats, raw);
  }

  /** On every run without a failed call packets written are packets read plus tables injected, across resets too. */
  lemma {:induction false} RunBalanced(cfg: Config, w: World, calls: seq<Call>)
    requires NeverFails(cfg, w, calls)
    ensures Balanced(Run(cfg, w, calls).st)
  {
    hide Process, Inv, LogOk;
    if calls != [] {
      var c := Run(cfg, w, calls[..|calls| - 1]);
      RunBalanced(cfg, w, calls[..|calls| - 1]);
      RunSafe(cfg, w, calls[..|calls| - 1]);
      match calls[|calls| - 1]
      case Feed(data) => FeedBalanced(cfg, w, c, data);
      case Finish =>
      case Reset =>
    }
  }

  function BytesFed(calls: seq<Call>): nat
  {
    if calls == [] then 0 else
    BytesFed(calls[..|calls| - 1]) + match calls[|calls| - 1]
                                case Feed(data) => |data|
                                case Finish => 0
                                case Reset => 0
  }

  /** Bytes of unfinished packets that the resets of a run give up. */
  function GivenUp(cfg: Config, w: World, calls: seq<Call>): nat
  {
    if calls == [] then 0 else
    var front := calls[..|calls| - 1];
    GivenUp(cfg, w, front) + if calls[|calls| - 1].Reset? then |Run(cfg, w, front).framer.pending| else 0
  }

  /** On every run without a failed call: bytes fed = 188 * packets + dropped + pending + given up at resets. */
  lemma {:induction false} RunAccounts(cfg: Config, w: World, calls: seq<Call>)
    requires NeverFails(cfg, w, calls)
    ensures Accounted(Run(cfg, w, calls)) + GivenUp(cfg, w, calls) == BytesFed(calls)
  {
    hide Process, Inv, LogOk;
    if calls != [] {
      var c := Run(cfg, w, calls[..|calls| - 1]);
      RunAccounts(cfg, w, calls[..|calls| - 1]);
      RunSafe(cfg, w, calls[..|calls| - 1]);
      match calls[|calls| - 1]
      case Feed(data) => FeedAccounts(cfg, w, c, data);
      case Finish =>
      case Reset =>
    }
  }

  // ---------- Timestamps and counters of every run ----------

  ghost predicate TimesOk(c: Ctx)
  {
    IsSmoothed(c.st.log) && (!c.failed ==> TimeInStep(c.st))
  }

  lemma FreshTimes()
    ensures TimeInStep(InitialState()) && IsSmoothed([])
  {
    assert SmoothRun(FreshTime(), []) == (FreshTime(), Items(Own([])));
  }

  lemma {:induction false} FeedTimes(cfg: Config, w: World, c: Ctx, data: seq<byte>)
    requires CtxOk(cfg, c) && Smoothing(cfg) && !cfg.dryRun && TimesOk(c)
    ensures TimesOk(FeedBytes(Step(cfg, w), c, data))
  {
    if data != [] {
      var front := data[..|data| - 1];
      FeedTimes(cfg, w, c, front);
      FeedAccounts(cfg, w, c, front);
      var c1 := FeedBytes(Step(cfg, w), c, front);
      var (framer, packet) := Push(c1.framer, data[|data| - 1]);
      if !c1.failed && packet.Some? {
        ProcessTimes(cfg, w, c1.st, packet.value);
      }
    }
  }

  lemma {:induction false} RunTimes(cfg: Config, w: World, calls: seq<Call>)
    requires Smoothing(cfg) && !cfg.dryRun
    ensures TimesOk(Run(cfg, w, calls))
  {
    FreshTimes();
    if calls != [] {
      var c := Run(cfg, w, calls[..|calls| - 1]);
      RunTimes(cfg, w, calls[..|calls| - 1]);
      RunSafe(cfg, w, calls[..|calls| - 1]);
      match calls[|calls| - 1]
      case Feed(data) => FeedTimes(cfg, w, c, data);
      case Finish => FinishTimes(c);
      case Reset => ResetTimes(c);
    }
  }

  lemma FinishTimes(c: Ctx)
    requires TimesOk(c)
    ensures TimesOk(FinishCtx(c))
  {
    if !c.failed {
      InStepByOwn(c.st, FinishCtx(c).st);
    }
  }

  lemma ResetTimes(c: Ctx)
    ensures TimesOk(ResetCtx(c))
  {
    FreshTimes();
    InStepByOwn(InitialState(), ResetCtx(c).st);
  }

  /** On every run the PTS values, and likewise the PCR bases, of the video packets written since the last
      reset advance by 3600 to 93600 ticks modulo 2^33, and smoothing those packets again changes no byte. */
  lemma RunPaced(cfg: Config, w: World, calls: seq<Call>, clock: Clock)
    requires Smoothing(cfg) && !cfg.dryRun
    ensures var out := Items(Own(Run(cfg, w, calls).st.log));
            Paced(Trail(out, clock)) && SmoothRun(FreshTime(), out).1 == out
  {
    RunTimes(cfg, w, calls);
    var out := Items(Own(Run(cfg, w, calls).st.log));
    var pre :| SmoothRun(FreshTime(), pre).1 == out;
    OutputPaced(pre, clock);
    SmoothingIdempotent(pre, FreshTime());
  }

  predicate CountersOk(cfg: Config, rw: Rewriter, c: Ctx, pid: nat)
    requires pid < PID_COUNT
  {
    CountersRunOn(cfg, rw, c.st.log, pid) && (!c.failed ==> CountersInStep(cfg, rw, c.st, pid))
  }

  lemma {:induction false} FeedCounters(cfg: Config, w: World, c: Ctx, data: seq<byte>, rw: Rewriter, pid: nat)
    requires CtxOk(cfg, c) && Active(cfg, rw) && !cfg.dryRun && pid < NULL_PID && CountersOk(cfg, rw, c, pid)
    ensures CountersOk(cfg, rw, FeedBytes(Step(cfg, w), c, data), pid)
  {
    if data != [] {
      var front := data[..|data| - 1];
      FeedCounters(cfg, w, c, front, rw, pid);
      FeedAccounts(cfg, w, c, front);
      var c1 := FeedBytes(Step(cfg, w), c, front);
      var (framer, packet) := Push(c1.framer, data[|data| - 1]);
      if !c1.failed && packet.Some? {
        ProcessCounters(cfg, w, c1.st, packet.value, rw, pid);
      }
    }
  }

  /** On every run, over all payload packets written on a PID since the last reset while the rewriter was in charge of
      it, whatever was written in between: the k-th carries the first counter plus k modulo 16, a table PID starting at
      zero. A table packet whose PID is also listed as video takes its turn but may show the video counter. */
  lemma {:induction false} RunCounters(cfg: Config, w: World, calls: seq<Call>, rw: Rewriter, pid: nat)
    requires Active(cfg, rw) && !cfg.dryRun && pid < NULL_PID
    ensures CountersOk(cfg, rw, Run(cfg, w, calls), pid)
  {
    if calls != [] {
      var c := Run(cfg, w, calls[..|calls| - 1]);
      RunCounters(cfg, w, calls[..|calls| - 1], rw, pid);
      RunSafe(cfg, w, calls[..|calls| - 1]);
      match calls[|calls| - 1]
      case Feed(data) => FeedCounters(cfg, w, c, data, rw, pid);
      case Finish =>
      case Reset =>
    }
  }

  lemma {:induction false} OwnSubset(log: seq<Entry>)
    ensures forall e :: e in Own(log) ==> e in log
  {
    if log != [] {
      OwnSubset(log[..|log| - 1]);
    }
  }

  function CountersOf(es: seq<Entry>, pid: nat): seq<nat>
  {
    CcTrail(Raws(es), pid)
  }

  /** The counters of the payload packets written on a PID since the last reset, injected tables left out. */
  function OwnCounters(log: seq<Entry>, pid: nat): seq<nat>
  {
    CountersOf(Own(log), pid)
  }

  predicate NeverVideo(log: seq<Entry>, pid: nat)
  {
    forall i :: 0 <= i < |log| ==> !Listed(pid, log[i].psi.video)
  }

  /** 0, 1, 2, ... modulo 16. */
  predicate CountsFromZero(trail: seq<nat>)
  {
    forall k :: 0 <= k < |trail| ==> trail[k] == k % 16
  }

  /** The rewriter had the last word on each payload packet of the PID. */
  predicate Steady(cfg: Config, rw: Rewriter, es: seq<Entry>, pid: nat)
  {
    forall i :: 0 <= i < |es| && CarriesPayload(es[i].raw, pid) ==>
      InCharge(rw, es[i].psi, pid) && !Overwritten(cfg, rw, es[i].psi, pid)
  }

  lemma {:induction false} TurnsConcat(rw: Rewriter, a: seq<Entry>, b: seq<Entry>, pid: nat)
    ensures Turns(rw, a + b, pid) == Turns(rw, a, pid) + Turns(rw, b, pid)
  {
    hide TurnOf, CarriesPayload;
    if b == [] {
      assert a + b == a;
    } else {
      hide Turns;
      var front, last := b[..|b| - 1], b[|b| - 1];
      assert b == front + [last];
      TurnsConcat(rw, a, front, pid);
      TurnsAppend(rw, front, last, pid);
      assert a + b == (a + front) + [last];
      TurnsAppend(rw, a + front, last, pid);
      Regroup(Turns(rw, a, pid), Turns(rw, front, pid), TurnOf(rw, last, pid));
    }
  }

  lemma Regroup<T>(a: seq<T>, b: seq<T>, c: seq<T>)
    ensures (a + b) + c == a + (b + c)
  {
  }

  /** The packets of a steady stretch all take their turn. */
  lemma {:induction false} SteadyTrail(cfg: Config, rw: Rewriter, es: seq<Entry>, pid: nat)
    requires Steady(cfg, rw, es, pid)
    ensures var turns := Turns(rw, es, pid);
            && |turns| == |CountersOf(es, pid)|
            && forall k :: 0 <= k < |turns| ==> CountersOf(es, pid)[k] == CcOf(turns[k]) && !Overwritten(cfg, rw, turns[k].psi, pid)
  {
    if es != [] {
      var front := es[..|es| - 1];
      assert Raws(es)[..|es| - 1] == Raws(front);
      SteadyTrail(cfg, rw, front, pid);
    }
  }

  lemma CountingConsecutive(trail: seq<nat>, base: nat)
    requires forall k :: 0 <= k < |trail| ==> trail[k] == (base + k) % 16
    ensures Consecutive(trail)
  {
    forall i | 0 < i < |trail| ensures trail[i] == (trail[i - 1] + 1) % 16 {
      ModSucc(base + (i - 1));
    }
  }

  /** A steady stretch of the output carries consecutive counters. */
  lemma StretchConsecutive(cfg: Config, rw: Rewriter, es: seq<Entry>, from: nat, to: nat, pid: nat)
    requires from <= to <= |es| && RunsOn(cfg, rw, Turns(rw, es, pid), pid) && Steady(cfg, rw, es[from..to], pid)
    ensures Consecutive(CountersOf(es[from..to], pid))
  {
    hide Turns, CountersOf, Steady, Overwritten, RunsOn, Consecutive, CcOf;
    var a, b, c := es[..from], es[from..to], es[to..];
    assert es == a + b + c;
    TurnsConcat(rw, a + b, c, pid);
    TurnsConcat(rw, a, b, pid);
    SteadyTrail(cfg, rw, b, pid);
    CountingOn(cfg, rw, Turns(rw, es, pid), |Turns(rw, a, pid)|, Turns(rw, b, pid), CountersOf(b, pid), pid);
  }

  /** Counters read off a run from its `n`-th turn on. */
  lemma CountingOn(cfg: Config, rw: Rewriter, all: seq<Entry>, n: nat, turns: seq<Entry>, trail: seq<nat>, pid: nat)
    requires RunsOn(cfg, rw, all, pid) && n + |turns| <= |all| && all[n..n + |turns|] == turns && |trail| == |turns|
    requires forall k :: 0 <= k < |turns| ==> trail[k] == CcOf(turns[k]) && !Overwritten(cfg, rw, turns[k].psi, pid)
    ensures Consecutive(trail)
  {
    hide Overwritten, StartOf, Consecutive, CcOf;
    forall k | 0 <= k < |trail| ensures trail[k] == (StartOf(rw, all) + n + k) % 16 {
      assert all[n + k] == turns[k];
    }
    CountingConsecutive(trail, StartOf(rw, all) + n);
  }

  lemma NeverVideoSteady(cfg: Config, log: seq<Entry>, pid: nat)
    requires (pid == 0 || pid == SDT_PID) && (cfg.smoothVideoCc ==> NeverVideo(log, pid))
    ensures Steady(cfg, ForTables, Own(log), pid)
  {
    OwnSubset(log);
    forall i | 0 <= i < |Own(log)|
      ensures InCharge(ForTables, Own(log)[i].psi, pid) && !Overwritten(cfg, ForTables, Own(log)[i].psi, pid)
    {
      assert Own(log)[i] in log;
    }
  }

  /** The packets written on PID 0, and on the SDT's PID, with a payload count from zero, unless a PMT lists that PID
      as video while video counters are smoothed. */
  lemma TableCounters(cfg: Config, w: World, calls: seq<Call>, pid: nat)
    requires Cleaning(cfg) && !cfg.dryRun && (pid == 0 || pid == SDT_PID)
    requires cfg.smoothVideoCc ==> NeverVideo(Run(cfg, w, calls).st.log, pid)
    ensures CountsFromZero(OwnCounters(Run(cfg, w, calls).st.log, pid))
  {
    hide Parse, Run, CcTrail, Raws, Turns;
    var log := Run(cfg, w, calls).st.log;
    RunCounters(cfg, w, calls, ForTables, pid);
    NeverVideoSteady(cfg, log, pid);
    SteadyTrail(cfg, ForTables, Own(log), pid);
  }

  predicate NothingInjected(log: seq<Entry>)
  {
    forall i :: 0 <= i < |log| ==> !log[i].injected
  }

  lemma DeliverInjectsNothing(cfg: Config, w: World, st: State, raw: Raw)
    requires cfg.psiIntervalMs == 0 && NothingInjected(st.log)
    ensures NothingInjected(Deliver(cfg, w, st, raw).0.log)
  {
  }

  lemma FilteredLog(cfg: Config, st: State, raw: Raw)
    ensures Filtered(cfg, st, raw).Some? ==> Filtered(cfg, st, raw).value.0.log == st.log
  {
  }

  lemma ProcessInjectsNothing(cfg: Config, w: World, st: State, raw: Raw)
    requires cfg.psiIntervalMs == 0 && NothingInjected(st.log)
    ensures NothingInjected(Process(cfg, w, st, raw).0.log)
  {
    FilteredLog(cfg, st, raw);
    if Filtered(cfg, st, raw).Some? {
      var (st2, raw2) := Filtered(cfg, st, raw).value;
      RewriteFrame(cfg, st2, raw2);
      var (st3, raw3) := Rewrite(cfg, st2, raw2);
      DeliverInjectsNothing(cfg, w, st3, raw3);
    }
  }

  lemma {:induction false} FeedInjectsNothing(cfg: Config, w: World, c: Ctx, data: seq<byte>)
    requires cfg.psiIntervalMs == 0 && NothingInjected(c.st.log)
    ensures NothingInjected(FeedBytes(Step(cfg, w), c, data).st.log)
  {
    if data != [] {
      var front := data[..|data| - 1];
      FeedInjectsNothing(cfg, w, c, front);
      var c1 := FeedBytes(Step(cfg, w), c, front);
      var (framer, packet) := Push(c1.framer, data[|data| - 1]);
      if !c1.failed && packet.Some? {
        ProcessInjectsNothing(cfg, w, c1.st, packet.value);
      }
    }
  }

  lemma {:induction false} RunInjectsNothing(cfg: Config, w: World, calls: seq<Call>)
    requires cfg.psiIntervalMs == 0
    ensures NothingInjected(Run(cfg, w, calls).st.log)
  {
    if calls != [] {
      var c := Run(cfg, w, calls[..|calls| - 1]);
      RunInjectsNothing(cfg, w, calls[..|calls| - 1]);
      match calls[|calls| - 1]
      case Feed(data) => FeedInjectsNothing(cfg, w, c, data);
      case Finish =>
      case Reset =>
    }
  }

  /** No injected table in the list counts on this PID. */
  predicate NoneInjectedOn(log: seq<Entry>, pid: nat)
  {
    forall i :: 0 <= i < |log| && log[i].injected ==> !CarriesPayload(log[i].raw, pid)
  }

  lemma {:induction false} OwnConcat(a: seq<Entry>, b: seq<Entry>)
    ensures Own(a + b) == Own(a) + Own(b)
  {
    if b == [] {
      assert a + b == a;
    } else {
      assert (a + b)[..|a + b| - 1] == a + b[..|b| - 1];
      OwnConcat(a, b[..|b| - 1]);
    }
  }

  /** Then the checker meets the same counters with the injected tables as without. */
  lemma {:induction false} OwnCountersAll(log: seq<Entry>, pid: nat)
    requires NoneInjectedOn(log, pid)
    ensures CountersOf(Own(log), pid) == CountersOf(log, pid)
  {
    if log != [] {
      var front, last := log[..|log| - 1], log[|log| - 1];
      OwnCountersAll(front, pid);
      CountersAppend(front, last, pid);
      CountersAppend(Own(front), last, pid);
      assert log == front + [last];
      assert last.injected ==> Own(log) == Own(front) && CountersOf(front, pid) + [] == CountersOf(front, pid);
    }
  }

  lemma CountersAppend(es: seq<Entry>, e: Entry, pid: nat)
    ensures CountersOf(es + [e], pid) ==
            CountersOf(es, pid) + if CarriesPayload(e.raw, pid) then [Parse(e.raw).value.continuityCounter] else []
  {
    assert Raws(es + [e]) == Raws(es) + [e.raw];
    assert Raws(es + [e])[..|es|] == Raws(es);
  }

  /** A stretch of the output without injected payload on the PID, on which the rewriter had the last word. */
  lemma OwnStretch(cfg: Config, rw: Rewriter, log: seq<Entry>, from: nat, to: nat, pid: nat)
    requires from <= to <= |log| && RunsOn(cfg, rw, Turns(rw, Own(log), pid), pid)
    requires Steady(cfg, rw, Own(log[from..to]), pid) && NoneInjectedOn(log[from..to], pid)
    ensures Consecutive(CountersOf(log[from..to], pid))
  {
    hide RunsOn, Turns, Steady, CountersOf, Own, Consecutive, NoneInjectedOn;
    var a, b, c := log[..from], log[from..to], log[to..];
    assert log == a + b + c;
    OwnConcat(a + b, c);
    OwnConcat(a, b);
    assert Own(log)[|Own(a)|..|Own(a)| + |Own(b)|] == Own(b);
    StretchConsecutive(cfg, rw, Own(log), |Own(a)|, |Own(a)| + |Own(b)|, pid);
    OwnCountersAll(b, pid);
  }

  lemma NoneInjected(log: seq<Entry>, from: nat, to: nat, pid: nat)
    requires from <= to <= |log| && NothingInjected(log)
    ensures NoneInjectedOn(log[from..to], pid)
  {
  }

  /** The continuity checker run against any stretch of the output, injected tables included, on which the rewriter had
      the last word on a PID finds no error there exactly when every discontinuity announced without payload fits,
      provided no table was injected on that PID: always so with injection off. */
  lemma OutputAccepted(cfg: Config, w: World, calls: seq<Call>, rw: Rewriter, pid: nat, from: nat, to: nat)
    requires Active(cfg, rw) && !cfg.dryRun && pid < NULL_PID
    requires from <= to <= |Run(cfg, w, calls).st.log| && Steady(cfg, rw, Own(Run(cfg, w, calls).st.log[from..to]), pid)
    requires cfg.psiIntervalMs == 0 || NoneInjectedOn(Run(cfg, w, calls).st.log[from..to], pid)
    ensures var out := Raws(Run(cfg, w, calls).st.log[from..to]);
            Errors(WatchRun(out)[pid]) == 0 <==> StraysFit(out, pid)
  {
    hide Run, Steady, Own, NoneInjectedOn, NothingInjected, Turns, RunsOn, WatchRun, StraysFit, Consecutive;
    var log := Run(cfg, w, calls).st.log;
    if cfg.psiIntervalMs == 0 {
      RunInjectsNothing(cfg, w, calls);
      NoneInjected(log, from, to, pid);
    }
    RunCounters(cfg, w, calls, rw, pid);
    OwnStretch(cfg, rw, log, from, to, pid);
    ConsecutiveAccepted(Raws(log[from..to]), pid);
  }

  // ---------- Passthrough ----------

  lemma PassStep(cfg: Config, w: World, st: State, raw: Raw)
    requires cfg.passthrough && !cfg.dryRun
    ensures Raws(Process(cfg, w, st, raw).0.log) == Raws(st.log) + [raw]
  {
    hide Parse, ObservePid;
    var r := Admit(cfg, st.psi, st.stats, raw);
    assert r.Final? || r.Pass?;
  }

  /** A machine that logs each packet it takes logs all of them until it fails. */
  lemma {:induction false} LogsAll(step: (State, Raw) -> (State, bool), st: State, raws: seq<Raw>)
    requires forall s: State, r: Raw :: Raws(step(s, r).0.log) == Raws(s.log) + [r]
    ensures var (r, ok) := ProcessAll(step, st, raws);
            |Raws(r.log)| <= |Raws(st.log)| + |raws| && Raws(r.log) <= Raws(st.log) + raws
            && (ok ==> Raws(r.log) == Raws(st.log) + raws)
    decreases |raws|
  {
    if raws != [] {
      LogsAll(step, step(st, raws[0]).0, raws[1..]);
      assert Raws(st.log) + [raws[0]] + raws[1..] == Raws(st.log) + raws;
    }
  }

  /** In passthrough the output is exactly the packets of the input, whatever they contain; after a refusal it is the
      packets up to the one refused. */
  lemma PassthroughIdentity(cfg: Config, w: World, data: seq<byte>)
    requires cfg.passthrough && !cfg.dryRun
    ensures var c := FeedBytes(Step(cfg, w), InitialCtx(), data);
            Raws(c.st.log) <= Frame(data).packets && (!c.failed ==> Raws(c.st.log) == Frame(data).packets)
  {
    hide Process, Frame;
    FeedIsFrame(Step(cfg, w), InitialCtx(), data);
    forall s: State, r: Raw ensures Raws(Step(cfg, w)(s, r).0.log) == Raws(s.log) + [r] {
      PassStep(cfg, w, s, r);
    }
    LogsAll(Step(cfg, w), InitialState(), Frame(data).packets);
  }
}
