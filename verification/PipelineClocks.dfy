// Counters and timestamps of the whole output in cleaning mode (src/scatterfix.c:115-159, 196-276, 394-406).
module PipelineClocks {
  import opened Bytes
  import opened TsPackets
  import opened PsiTables
  import opened Statistics
  import opened Timestamps
  import opened Continuity
  import opened Pipeline
  import opened PipelineSafety

  /** The packets written in place of input packets, in order; injected tables are left out. */
  function Own(log: seq<Entry>): seq<Entry>
  {
    if log == [] then [] else
    Own(log[..|log| - 1]) + if log[|log| - 1].injected then [] else [log[|log| - 1]]
  }

  function Raws(es: seq<Entry>): (r: seq<Raw>)
    ensures |r| == |es|
  {
    seq(|es|, i requires 0 <= i < |es| => es[i].raw)
  }

  function Items(es: seq<Entry>): (r: seq<Item>)
    ensures |r| == |es|
  {
    seq(|es|, i requires 0 <= i < |es| => Item(es[i].psi.video, es[i].raw))
  }

  lemma {:induction false} InjectedLeaveOwn(psi: Psi, before: seq<Entry>, after: seq<Entry>)
    requires OnlyInjected(psi, before, after)
    ensures Own(after) == Own(before)
    decreases |after|
  {
    if |after| == |before| {
      assert after == before;
    } else {
      var shorter := after[..|after| - 1];
      assert shorter[..|before|] == before;
      InjectedLeaveOwn(psi, before, shorter);
      assert InjectedFrom(psi, after[|after| - 1]);
    }
  }

  lemma OwnAppend(log: seq<Entry>, e: Entry)
    requires !e.injected
    ensures Own(log + [e]) == Own(log) + [e]
    ensures Raws(Own(log + [e])) == Raws(Own(log)) + [e.raw]
    ensures Items(Own(log + [e])) == Items(Own(log)) + [Item(e.psi.video, e.raw)]
  {
    assert (log + [e])[..|log + [e]| - 1] == log;
  }

  // ---------- Timestamps ----------

  predicate Smoothing(cfg: Config)
  {
    Cleaning(cfg) && cfg.smoothTimestamps
  }

  /** The packets written so far are what the smoother makes of some sequence of packets. */
  ghost predicate IsSmoothed(log: seq<Entry>)
  {
    exists pre :: SmoothRun(FreshTime(), pre).1 == Items(Own(log))
  }

  ghost predicate TimeInStep(st: State)
  {
    exists pre :: SmoothRun(FreshTime(), pre) == (st.time, Items(Own(st.log)))
  }

  lemma SmoothRunAppend(pre: seq<Item>, item: Item)
    ensures var (st, out) := SmoothRun(FreshTime(), pre);
            var (st', last) := SmoothItem(st, item);
            SmoothRun(FreshTime(), pre + [item]) == (st', out + [last])
  {
    assert (pre + [item])[..|pre + [item]| - 1] == pre;
  }

  lemma NullUntouched(video: seq<Stream>, time: TimeState)
    ensures SmoothItem(time, Item(video, NullPacket())) == (time, Item(video, NullPacket()))
  {
  }

  /** One more packet through the smoother and into the log. */
  lemma InStepAppend(st: State, time: TimeState, e: Entry, pre: Item)
    requires TimeInStep(st) && !e.injected
    requires SmoothItem(st.time, pre) == (time, Item(e.psi.video, e.raw))
    ensures TimeInStep(st.(time := time, log := st.log + [e]))
  {
    var items :| SmoothRun(FreshTime(), items) == (st.time, Items(Own(st.log)));
    SmoothRunAppend(items, pre);
    OwnAppend(st.log, e);
    assert SmoothRun(FreshTime(), items + [pre]) == (time, Items(Own(st.log + [e])));
  }

  /** What is known about delivery when the callback is really called. */
  lemma DeliverLog(cfg: Config, w: World, st: State, raw: Raw)
    requires !cfg.dryRun
    ensures var (r, ok) := Deliver(cfg, w, st, raw);
            && r == st.(log := r.log, attempts := r.attempts, lastInject := r.lastInject, stats := r.stats)
            && (Own(r.log) == Own(st.log) + [Entry(raw, false, st.psi, st.stats.packetsRead)] || (!ok && Own(r.log) == Own(st.log)))
  {
    InjectEffect(cfg, w, st);
    var (st1, ok1) := if cfg.passthrough then (st, true) else Inject(cfg, w, st);
    InjectedLeaveOwn(st.psi, st.log, st1.log);
    if ok1 {
      OwnAppend(st1.log, Entry(raw, false, st.psi, st.stats.packetsRead));
    }
  }

  /** State and buffer in front of the rewriters. */
  function Filtered(cfg: Config, st: State, raw: Raw): Option<(State, Raw)>
  {
    match Admit(cfg, st.psi, st.stats, raw)
    case Final(_, _) => None
    case Lost(_) => None
    case Pass(stats, raw1, pkt) => Some(Filter(cfg, Learn(st.(stats := stats), raw1, pkt), raw1, pkt))
  }

  lemma AdmitCountsRead(cfg: Config, psi: Psi, stats: Stats, raw: Raw)
    ensures Admit(cfg, psi, stats, raw).stats.packetsRead == stats.packetsRead + 1
  {
    hide Parse, HasValidSection, IsKnownSi, CachedFor;
  }

  lemma FilteredOk(cfg: Config, st: State, raw: Raw)
    requires Inv(cfg, st)
    ensures Filtered(cfg, st, raw).Some? ==>
              var (st1, raw1) := Filtered(cfg, st, raw).value;
              && Parse(raw1).Some?
              && st1.log == st.log && st1.time == st.time && st1.psiCc == st.psiCc && st1.videoCc == st.videoCc
    ensures Filtered(cfg, st, raw).None? && Strict(cfg) ==>
              Admit(cfg, st.psi, st.stats, raw).Final? && Admit(cfg, st.psi, st.stats, raw).raw == NullPacket()
  {
    hide Admit, Parse, Observe, ObserveCc, Allowed;
    AdmitScreens(cfg, st.psi, st.stats, raw);
    ParseNull();
  }

  lemma ParseNull()
    ensures Parse(NullPacket()).Some?
  {
  }

  /** The filler packet in place of the input packet, and nothing else. */
  predicate Nulled(st: State, r: State)
  {
    && r.log == st.log + [Entry(NullPacket(), false, st.psi, st.stats.packetsRead + 1)]
    && r.time == st.time && r.psiCc == st.psiCc && r.videoCc == st.videoCc
  }

  /** A packet is either replaced at once, or filtered, rewritten and delivered. */
  lemma ProcessSplit(cfg: Config, w: World, st: State, raw: Raw)
    requires Inv(cfg, st) && Cleaning(cfg) && !cfg.dryRun
    ensures match Filtered(cfg, st, raw)
            case None => Nulled(st, Process(cfg, w, st, raw).0)
            case Some((st1, raw1)) =>
              var (st2, raw2) := Rewrite(cfg, st1, raw1); Process(cfg, w, st, raw) == Deliver(cfg, w, st2, raw2)
  {
    FilteredOk(cfg, st, raw);
    AdmitCountsRead(cfg, st.psi, st.stats, raw);
    hide Admit, Learn, Filter, Rewrite, Deliver, NullPacket, Inv;
  }

  /** The rewriters send exactly one packet through the smoother. */
  lemma RewriteTimes(cfg: Config, st: State, raw: Raw)
    requires Smoothing(cfg) && Parse(raw).Some? && TimeInStep(st)
    ensures var (st', raw') := Rewrite(cfg, st, raw);
            TimeInStep(st'.(log := st.log + [Entry(raw', false, st.psi, st'.stats.packetsRead)]))
  {
    RewriteParts(cfg, st, raw);
    var (st', raw') := Rewrite(cfg, st, raw);
    var raw2 := Recounted(cfg, st, raw);
    var e := Entry(raw', false, st.psi, st'.stats.packetsRead);
    InStepAppend(st, st'.time, e, Item(st.psi.video, raw2));
    assert TimeInStep(st.(time := st'.time, log := st.log + [e]));
    InStepByOwn(st.(time := st'.time, log := st.log + [e]), st'.(log := st.log + [e]));
  }

  lemma InStepByOwn(a: State, b: State)
    requires TimeInStep(a) && a.time == b.time && Own(a.log) == Own(b.log)
    ensures TimeInStep(b)
  {
  }

  lemma DeliverTimes(cfg: Config, w: World, st: State, raw: Raw)
    requires !cfg.dryRun && IsSmoothed(st.log)
    requires TimeInStep(st.(log := st.log + [Entry(raw, false, st.psi, st.stats.packetsRead)]))
    ensures var (r, ok) := Deliver(cfg, w, st, raw);
            IsSmoothed(r.log) && (ok ==> TimeInStep(r))
  {
    DeliverLog(cfg, w, st, raw);
    var (r, ok) := Deliver(cfg, w, st, raw);
    OwnAppend(st.log, Entry(raw, false, st.psi, st.stats.packetsRead));
    if Own(r.log) == Own(st.log) + [Entry(raw, false, st.psi, st.stats.packetsRead)] {
      InStepByOwn(st.(log := st.log + [Entry(raw, false, st.psi, st.stats.packetsRead)]), r);
      InStepIsSmoothed(r);
    }
  }

  lemma NulledTimes(st: State, r: State)
    requires TimeInStep(st) && Nulled(st, r)
    ensures TimeInStep(r)
  {
    hide NullPacket, TimeInStep, SmoothItem;
    var e := Entry(NullPacket(), false, st.psi, st.stats.packetsRead + 1);
    NullUntouched(st.psi.video, st.time);
    InStepAppend(st, st.time, e, Item(st.psi.video, NullPacket()));
    InStepByOwn(st.(time := st.time, log := st.log + [e]), r);
  }

  lemma ProcessTimes(cfg: Config, w: World, st: State, raw: Raw)
    requires Inv(cfg, st) && Smoothing(cfg) && !cfg.dryRun && TimeInStep(st)
    ensures var (r, ok) := Process(cfg, w, st, raw);
            IsSmoothed(r.log) && (ok ==> TimeInStep(r))
  {
    hide Process, Filtered, Rewrite, Deliver, Parse, Inv, TimeInStep, IsSmoothed, Nulled;
    FilteredOk(cfg, st, raw);
    ProcessSplit(cfg, w, st, raw);
    if Filtered(cfg, st, raw).None? {
      NulledTimes(st, Process(cfg, w, st, raw).0);
      InStepIsSmoothed(Process(cfg, w, st, raw).0);
    } else {
      var (st1, raw1) := Filtered(cfg, st, raw).value;
      InStepByOwn(st, st1);
      RewriteTimes(cfg, st1, raw1);
      RewriteFrame(cfg, st1, raw1);
      InStepIsSmoothed(st);
      var (st2, raw2) := Rewrite(cfg, st1, raw1);
      DeliverTimes(cfg, w, st2, raw2);
    }
  }

  lemma InStepIsSmoothed(st: State)
    requires TimeInStep(st)
    ensures IsSmoothed(st.log)
  {
  }

  // ---------- Continuity counters ----------

  datatype Rewriter = ForTables | ForVideo

  predicate Active(cfg: Config, rw: Rewriter)
  {
    Cleaning(cfg) && (rw == ForVideo ==> cfg.smoothVideoCc)
  }

  function TableOf(st: State, rw: Rewriter): CcTable
  {
    if rw == ForTables then st.psiCc else st.videoCc
  }

  /** The rewriter counts payload packets of this PID, as the tables stand. */
  predicate InCharge(rw: Rewriter, psi: Psi, pid: nat)
  {
    if rw == ForTables then IsKnownSi(psi, pid) else Listed(pid, psi.video)
  }

  /** The video rewriter, which comes second, replaces the counter that the table rewriter gave. */
  predicate Overwritten(cfg: Config, rw: Rewriter, psi: Psi, pid: nat)
  {
    rw == ForTables && cfg.smoothVideoCc && Listed(pid, psi.video)
  }

  /** The payload packets of a PID written while the rewriter was in charge of it, in order. */
  function Turns(rw: Rewriter, es: seq<Entry>, pid: nat): (r: seq<Entry>)
    ensures forall i :: 0 <= i < |r| ==> CarriesPayload(r[i].raw, pid)
  {
    if es == [] then [] else Turns(rw, es[..|es| - 1], pid) + TurnOf(rw, es[|es| - 1], pid)
  }

  function TurnOf(rw: Rewriter, e: Entry, pid: nat): (r: seq<Entry>)
    ensures r != [] ==> r == [e] && CarriesPayload(e.raw, pid)
  {
    if CarriesPayload(e.raw, pid) && InCharge(rw, e.psi, pid) then [e] else []
  }

  /** The counter a written packet carries. */
  function CcOf(e: Entry): (cc: nat)
    ensures cc < 16
  {
    match Parse(e.raw)
    case None => 0
    case Some(pkt) => pkt.continuityCounter
  }

  /** A table PID counts from zero, a video PID from whatever its first packet in charge carried. */
  function StartOf(rw: Rewriter, turns: seq<Entry>): (cc: nat)
    ensures cc < 16
  {
    if rw == ForTables || turns == [] then 0 else CcOf(turns[0])
  }

  /** The k-th packet carries the start plus k modulo 16. */
  predicate RunsOn(cfg: Config, rw: Rewriter, turns: seq<Entry>, pid: nat)
  {
    forall k :: 0 <= k < |turns| && !Overwritten(cfg, rw, turns[k].psi, pid) ==>
      CcOf(turns[k]) == (StartOf(rw, turns) + k) % 16
  }

  predicate Counted(rw: Rewriter, t: CcTable, pid: nat, turns: seq<Entry>)
    requires pid < PID_COUNT
  {
    && (t.valid[pid] <==> turns != [])
    && (turns != [] ==> t.next[pid] == (StartOf(rw, turns) + |turns|) % 16)
  }

  predicate EsInStep(cfg: Config, rw: Rewriter, es: seq<Entry>, t: CcTable, pid: nat)
    requires pid < PID_COUNT
  {
    RunsOn(cfg, rw, Turns(rw, es, pid), pid) && Counted(rw, t, pid, Turns(rw, es, pid))
  }

  /** The counters of a PID run on over all packets written while the rewriter was in charge of it. */
  predicate CountersRunOn(cfg: Config, rw: Rewriter, log: seq<Entry>, pid: nat)
  {
    RunsOn(cfg, rw, Turns(rw, Own(log), pid), pid)
  }

  predicate CountersInStep(cfg: Config, rw: Rewriter, st: State, pid: nat)
    requires pid < PID_COUNT
  {
    EsInStep(cfg, rw, Own(st.log), TableOf(st, rw), pid)
  }

  /** What one rewriter does to the record and the counter of one PID. */
  predicate CounterStep(t: CcTable, t': CcTable, pid: nat, turn: bool, overwritten: bool, first: nat, cc: nat)
    requires pid < PID_COUNT && first < 16
  {
    if turn then
      && t'.valid[pid] && t'.next[pid] == (NextCc(t, pid, first) + 1) % 16
      && (overwritten || cc == NextCc(t, pid, first))
    else t'.valid[pid] == t.valid[pid] && t'.next[pid] == t.next[pid]
  }

  lemma CcOfWithCc(raw: Raw, cc: nat)
    requires Parse(raw).Some? && cc < 16
    ensures Parse(WithCc(raw, cc)) == Some(Parse(raw).value.(continuityCounter := cc))
  {
    ParseWithCc(raw, cc);
  }

  lemma TableCounts(psi: Psi, pkt: TsPacket, raw: Raw, t: CcTable, pid: nat)
    requires Parse(raw) == Some(pkt) && pid < PID_COUNT
    ensures var (t', raw') := RewritePsiCc(psi, pkt, raw, t);
            && Parse(raw').Some?
            && CounterStep(t, t', pid, CarriesPayload(raw, pid) && IsKnownSi(psi, pid), false, 0, Parse(raw').value.continuityCounter)
  {
    CcOfWithCc(raw, NextCc(t, pkt.pid, 0));
  }

  lemma VideoCounts(psi: Psi, pkt: TsPacket, raw: Raw, raw1: Raw, t: CcTable, pid: nat)
    requires Parse(raw) == Some(pkt) && Parse(raw1).Some? && pid < PID_COUNT
    ensures var (t', raw', changed) := RewriteVideoCc(psi, pkt, raw1, t);
            && Parse(raw').Some?
            && CounterStep(t, t', pid, CarriesPayload(raw, pid) && Listed(pid, psi.video), false, pkt.continuityCounter,
                           Parse(raw').value.continuityCounter)
  {
    CcOfWithCc(raw1, NextCc(t, pkt.pid, pkt.continuityCounter));
  }

  lemma RewriteTables(cfg: Config, st: State, raw: Raw)
    requires Cleaning(cfg) && Parse(raw).Some?
    ensures var pkt := Parse(raw).value;
            var (st', raw') := Rewrite(cfg, st, raw);
            var (psiCc, raw1) := RewritePsiCc(st.psi, pkt, raw, st.psiCc);
            && st'.psiCc == psiCc
            && (cfg.smoothVideoCc ==> st'.videoCc == RewriteVideoCc(st.psi, pkt, raw1, st.videoCc).0)
  {
  }

  lemma TablesCarry(cfg: Config, st: State, raw: Raw, pid: nat)
    requires Cleaning(cfg) && Parse(raw).Some? && pid < PID_COUNT
    ensures var (st', raw') := Rewrite(cfg, st, raw);
            && Parse(raw').Some?
            && CarriesPayload(raw', pid) == CarriesPayload(raw, pid)
            && CounterStep(st.psiCc, st'.psiCc, pid, CarriesPayload(raw', pid) && IsKnownSi(st.psi, pid),
                           Overwritten(cfg, ForTables, st.psi, pid), 0, Parse(raw').value.continuityCounter)
  {
    hide Rewrite, IsKnownSi, Listed;
    var pkt := Parse(raw).value;
    RewriteParts(cfg, st, raw);
    RewriteTables(cfg, st, raw);
    TableCounts(st.psi, pkt, raw, st.psiCc, pid);
    VideoCcRole(st.psi, pkt, RewritePsiCc(st.psi, pkt, raw, st.psiCc).1, st.videoCc);
  }

  lemma VideoCarries(cfg: Config, st: State, raw: Raw, pid: nat)
    requires Active(cfg, ForVideo) && Parse(raw).Some? && pid < PID_COUNT
    ensures var (st', raw') := Rewrite(cfg, st, raw);
            && Parse(raw').Some?
            && CarriesPayload(raw', pid) == CarriesPayload(raw, pid)
            && CounterStep(st.videoCc, st'.videoCc, pid, CarriesPayload(raw', pid) && Listed(pid, st.psi.video), false,
                           Parse(raw).value.continuityCounter, Parse(raw').value.continuityCounter)
  {
    hide Rewrite, IsKnownSi, Listed;
    var pkt := Parse(raw).value;
    RewriteParts(cfg, st, raw);
    RewriteTables(cfg, st, raw);
    TableCounts(st.psi, pkt, raw, st.psiCc, pid);
    VideoCounts(st.psi, pkt, raw, RewritePsiCc(st.psi, pkt, raw, st.psiCc).1, st.videoCc, pid);
  }

  lemma RewriteCounts(cfg: Config, st: State, raw: Raw, rw: Rewriter, pid: nat)
    requires Active(cfg, rw) && Parse(raw).Some? && pid < PID_COUNT
    ensures var (st', raw') := Rewrite(cfg, st, raw);
            var first := if rw == ForTables then 0 else Parse(raw).value.continuityCounter;
            && Parse(raw').Some?
            && CounterStep(TableOf(st, rw), TableOf(st', rw), pid, CarriesPayload(raw', pid) && InCharge(rw, st.psi, pid),
                           Overwritten(cfg, rw, st.psi, pid), first, Parse(raw').value.continuityCounter)
  {
    hide Rewrite, IsKnownSi, Listed, Parse, CarriesPayload;
    if rw == ForTables {
      TablesCarry(cfg, st, raw, pid);
    } else {
      VideoCarries(cfg, st, raw, pid);
    }
  }

  lemma TurnsAppend(rw: Rewriter, es: seq<Entry>, e: Entry, pid: nat)
    ensures Turns(rw, es + [e], pid) == Turns(rw, es, pid) + TurnOf(rw, e, pid)
  {
    assert (es + [e])[..|es + [e]| - 1] == es;
  }

  lemma ModSucc(x: nat)
    ensures (x % 16 + 1) % 16 == (x + 1) % 16
  {
  }

  /** A turn adds one counter to the run and advances the record. */
  lemma TakeTurn(cfg: Config, rw: Rewriter, turns: seq<Entry>, t: CcTable, t': CcTable, e: Entry, pid: nat, first: nat)
    requires pid < PID_COUNT && first < 16 && (rw == ForTables ==> first == 0)
    requires RunsOn(cfg, rw, turns, pid) && Counted(rw, t, pid, turns)
    requires CounterStep(t, t', pid, true, Overwritten(cfg, rw, e.psi, pid), first, CcOf(e))
    ensures RunsOn(cfg, rw, turns + [e], pid) && Counted(rw, t', pid, turns + [e])
  {
    hide CcOf, Listed;
    ModSucc(StartOf(rw, turns + [e]) + |turns|);
    assert NextCc(t, pid, first) == if turns == [] then first else (StartOf(rw, turns) + |turns|) % 16;
  }

  /** One more packet, with the table that produced its counter. */
  lemma InStepEntry(cfg: Config, rw: Rewriter, es: seq<Entry>, t: CcTable, t': CcTable, e: Entry, pid: nat, first: nat)
    requires pid < PID_COUNT && EsInStep(cfg, rw, es, t, pid) && Parse(e.raw).Some?
    requires first < 16 && (rw == ForTables ==> first == 0)
    requires CounterStep(t, t', pid, CarriesPayload(e.raw, pid) && InCharge(rw, e.psi, pid), Overwritten(cfg, rw, e.psi, pid),
                         first, Parse(e.raw).value.continuityCounter)
    ensures EsInStep(cfg, rw, es + [e], t', pid)
  {
    hide Parse, Listed, IsKnownSi, Turns, InCharge, RunsOn, StartOf;
    TurnsAppend(rw, es, e, pid);
    if CarriesPayload(e.raw, pid) && InCharge(rw, e.psi, pid) {
      TakeTurn(cfg, rw, Turns(rw, es, pid), t, t', e, pid, first);
    } else {
      assert Turns(rw, es + [e], pid) == Turns(rw, es, pid);
    }
  }

  lemma DeliverCounters(cfg: Config, w: World, st0: State, st: State, raw: Raw, rw: Rewriter, pid: nat, first: nat)
    requires !cfg.dryRun && pid < PID_COUNT && Parse(raw).Some?
    requires CountersInStep(cfg, rw, st0, pid) && st.log == st0.log
    requires first < 16 && (rw == ForTables ==> first == 0)
    requires CounterStep(TableOf(st0, rw), TableOf(st, rw), pid, CarriesPayload(raw, pid) && InCharge(rw, st.psi, pid),
                         Overwritten(cfg, rw, st.psi, pid), first, Parse(raw).value.continuityCounter)
    ensures var (r, ok) := Deliver(cfg, w, st, raw);
            CountersRunOn(cfg, rw, r.log, pid) && (ok ==> CountersInStep(cfg, rw, r, pid))
  {
    DeliverLog(cfg, w, st, raw);
    var (r, ok) := Deliver(cfg, w, st, raw);
    if Own(r.log) == Own(st.log) + [Entry(raw, false, st.psi, st.stats.packetsRead)] {
      InStepEntry(cfg, rw, Own(st.log), TableOf(st0, rw), TableOf(st, rw), Entry(raw, false, st.psi, st.stats.packetsRead), pid, first);
    }
  }

  lemma NulledCounters(cfg: Config, st: State, r: State, rw: Rewriter, pid: nat)
    requires pid < NULL_PID && CountersInStep(cfg, rw, st, pid) && Nulled(st, r)
    ensures CountersInStep(cfg, rw, r, pid)
  {
    hide EsInStep, Own;
    var e := Entry(NullPacket(), false, st.psi, st.stats.packetsRead + 1);
    OwnAppend(st.log, e);
    InStepEntry(cfg, rw, Own(st.log), TableOf(st, rw), TableOf(r, rw), e, pid, 0);
  }

  lemma InStepRunsOn(cfg: Config, rw: Rewriter, st: State, pid: nat)
    requires pid < PID_COUNT && CountersInStep(cfg, rw, st, pid)
    ensures CountersRunOn(cfg, rw, st.log, pid)
  {
  }

  lemma ProcessCounters(cfg: Config, w: World, st: State, raw: Raw, rw: Rewriter, pid: nat)
    requires Inv(cfg, st) && Active(cfg, rw) && !cfg.dryRun && pid < NULL_PID && CountersInStep(cfg, rw, st, pid)
    ensures var (r, ok) := Process(cfg, w, st, raw);
            CountersRunOn(cfg, rw, r.log, pid) && (ok ==> CountersInStep(cfg, rw, r, pid))
  {
    FilteredOk(cfg, st, raw);
    ProcessSplit(cfg, w, st, raw);
    hide Process, Filtered, Rewrite, Deliver, Parse, Inv, CountersRunOn, EsInStep, Nulled, CounterStep;
    if Filtered(cfg, st, raw).None? {
      NulledCounters(cfg, st, Process(cfg, w, st, raw).0, rw, pid);
      InStepRunsOn(cfg, rw, Process(cfg, w, st, raw).0, pid);
    } else {
      var (st1, raw1) := Filtered(cfg, st, raw).value;
      RewriteCounts(cfg, st1, raw1, rw, pid);
      RewriteFrame(cfg, st1, raw1);
      var (st2, raw2) := Rewrite(cfg, st1, raw1);
      DeliverCounters(cfg, w, st1, st2, raw2, rw, pid, if rw == ForTables then 0 else Parse(raw1).value.continuityCounter);
    }
  }
}
