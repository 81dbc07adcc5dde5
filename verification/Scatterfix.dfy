// The repair library's context and its public calls (src/scatterfix.c, src/repair.c): every method
// leaves the state and the output that the specification in Pipeline.dfy and RepairRuns.dfy tells.
module Scatterfixes {
  import opened Bytes
  import opened TsPackets
  import opened Statistics
  import opened PsiContexts
  import opened InPlace
  import opened Framing
  import T = PsiTables
  import C = Continuity
  import S = Timestamps
  import P = Pipeline
  import R = RepairRuns

  class Scatterfix {
    const config: P.Config
    const world: P.World
    const psi: PsiContext
    const continuity: ContinuityContext
    const cleanTime: TimestampRepair
    const cleanCcValid: array<bool>
    const cleanNextCc: array<C.nibble>
    const cleanVideoCcValid: array<bool>
    const cleanVideoNextCc: array<C.nibble>
    const pending: array<byte>
    var pendingSize: nat
    var stats: Stats
    var lastInject: nat
    var bytesDropped: nat
    var resyncCount: nat
    var failed: bool
    var skipping: bool
    var attempts: nat
    ghost var log: seq<P.Entry>

    ghost function Repr(): set<object>
    {
      {this, psi, continuity.pid, cleanTime, cleanCcValid, cleanNextCc, cleanVideoCcValid, cleanVideoNextCc, pending}
    }

    ghost predicate Valid()
      reads this, Repr()
    {
      && continuity.Valid()
      && cleanCcValid.Length == cleanNextCc.Length == cleanVideoCcValid.Length == cleanVideoNextCc.Length == PID_COUNT
      && pending.Length == PACKET_SIZE
      && cleanCcValid != cleanVideoCcValid && cleanNextCc != cleanVideoNextCc
      && pendingSize < PACKET_SIZE
      && FramerValid(FramerState(pending[..pendingSize], skipping, bytesDropped, resyncCount))
    }

    ghost function StateView(): P.State
      requires Valid()
      reads this, Repr()
    {
      P.State(psi.View(), continuity.View(), lastInject,
              C.CcArrays(cleanCcValid[..], cleanNextCc[..]), C.CcArrays(cleanVideoCcValid[..], cleanVideoNextCc[..]),
              cleanTime.View(), stats, log, attempts)
    }

    ghost function View(): R.Ctx
      requires Valid()
      reads this, Repr()
    {
      Fed(StateView(), FramerState(pending[..pendingSize], skipping, bytesDropped, resyncCount), failed)
    }

    /** `scatterfix_create`. */
    constructor (config: P.Config, world: P.World)
      ensures Valid() && fresh(Repr())
      ensures this.config == config && this.world == world
      ensures View() == R.InitialCtx()
    {
      this.config, this.world := config, world;
      psi := new PsiContext();
      continuity := new ContinuityContext();
      cleanTime := new TimestampRepair();
      cleanCcValid := new bool[PID_COUNT](_ => false);
      cleanNextCc := new C.nibble[PID_COUNT](_ => 0);
      cleanVideoCcValid := new bool[PID_COUNT](_ => false);
      cleanVideoNextCc := new C.nibble[PID_COUNT](_ => 0);
      pending := new byte[PACKET_SIZE](_ => 0);
      pendingSize, lastInject, bytesDropped, resyncCount, attempts := 0, 0, 0, 0, 0;
      stats := InitialStats();
      failed, skipping := false, false;
      log := [];
      new;
      assert cleanCcValid[..] == C.BlankTable().valid && cleanNextCc[..] == C.BlankTable().next;
      assert cleanVideoCcValid[..] == C.BlankTable().valid && cleanVideoNextCc[..] == C.BlankTable().next;
      assert pending[..0] == [];
    }

    /** `repair_write_packet`: in a dry run the packet is only counted. */
    method WritePacket(raw: Raw, ghost injected: bool) returns (ok: bool)
      requires Valid()
      modifies this`stats, this`attempts, this`log
      ensures Valid() && (StateView(), ok) == P.Write(config, world, old(StateView()), raw, injected)
    {
      if !config.dryRun {
        ok := world.accepts(attempts);
        attempts := attempts + 1;
        log := log + [P.Entry(raw, injected, psi.View(), stats.packetsRead)];
        if !ok {
          return;
        }
      }
      stats := stats.(packetsWritten := stats.packetsWritten + 1);
      ok := true;
    }

    /** Writes the cached tables; stops at the first refusal. */
    method WriteTables() returns (ok: bool, wrote: nat)
      requires Valid()
      modifies this`stats, this`attempts, this`log
      ensures Valid() && (StateView(), ok) == P.WriteTables(config, world, old(StateView()), P.CachedTables(psi.View()))
      ensures wrote == |P.CachedTables(psi.View())|
    {
      hide P.Write, StateView, P.CachedTables;
      ghost var st := StateView();
      var tables := Tables();
      assert tables[0..] == tables;
      wrote := |tables|;
      for i := 0 to |tables|
        invariant Valid()
        invariant P.WriteTables(config, world, StateView(), tables[i..]) == P.WriteTables(config, world, st, tables)
      {
        ghost var before := StateView();
        ok := WritePacket(tables[i], true);
        assert tables[i..][0] == tables[i] && tables[i..][1..] == tables[i + 1..];
        if !ok {
          return;
        }
      }
      ok := true;
    }

    /** The tables there are to write. */
    method Tables() returns (tables: seq<Raw>)
      requires Valid()
      ensures Valid() && StateView() == old(StateView())
      ensures tables == P.CachedTables(psi.View())
    {
      tables := [];
      if psi.cachedPat.Some? {
        tables := tables + [psi.cachedPat.value];
      }
      if psi.cachedPmt.Some? {
        tables := tables + [psi.cachedPmt.value];
      }
      if psi.cachedSdt.Some? {
        tables := tables + [psi.cachedSdt.value];
      }
    }

    /** The test in front of an injection. */
    method InjectionDue() returns (due: bool, now: nat)
      requires Valid()
      ensures due == P.InjectDue(config, world, StateView())
      ensures now == world.clock(stats.packetsRead)
    {
      now := world.clock(stats.packetsRead);
      due := config.psiIntervalMs != 0
          && !(psi.cachedPat.None? && psi.cachedPmt.None? && psi.cachedSdt.None?)
          && (lastInject == 0 || (now - lastInject) % U64 >= config.psiIntervalMs);
    }

    /** `repair_maybe_inject_psi`. */
    method MaybeInjectPsi() returns (ok: bool)
      requires Valid()
      modifies this`stats, this`attempts, this`log, this`lastInject
      ensures Valid() && (StateView(), ok) == P.Inject(config, world, old(StateView()))
    {
      hide P.WriteTables;
      var due, now := InjectionDue();
      if !due {
        return true;
      }
      ghost var st := StateView();
      var wrote;
      ok, wrote := WriteTables();
      ghost var st1 := StateView();
      assert (st1, ok) == P.WriteTables(config, world, st, P.CachedTables(st.psi));
      if ok {
        lastInject := now;
        stats := stats.(psiInjections := stats.psiInjections + wrote, repairActions := stats.repairActions + wrote);
        assert StateView() == st1.(lastInject := now, stats := stats);
      }
    }

    /** The choice of cached table shared by `repair_replace_tei_from_cache` and `clean_ts_replace_bad_psi`. */
    method CachedFor(pid: nat) returns (cached: Option<Raw>)
      ensures cached == P.CachedFor(psi.View(), pid)
    {
      if pid == 0 && psi.cachedPat.Some? {
        cached := psi.cachedPat;
      } else if psi.IsPmtPid(pid) && psi.cachedPmt.Some? {
        cached := psi.cachedPmt;
      } else if pid == T.SDT_PID && psi.cachedSdt.Some? {
        cached := psi.cachedSdt;
      } else {
        cached := None;
      }
    }

    /** `clean_ts_replace_bad_psi`, in place. */
    method ReplaceBadPsi(pkt: TsPacket) returns (replaced: bool)
      requires Valid() && pendingSize == 0 && Parse(pending[..]) == Some(pkt)
      modifies this`stats, pending
      ensures Valid()
      ensures P.ScreenTables(config, psi.View(), old(stats), old(pending[..]), pkt) ==
              if replaced then P.Again(stats, pending[..]) else P.Pass(stats, pending[..], pkt)
    {
      hide NullPacket, T.HasValidSection, P.CachedFor, Parse, WithCc;
      if !config.cleanTs || config.passthrough || !psi.IsKnownSi(pkt.pid) {
        return false;
      }
      var valid := psi.HasValidSection(pkt, pending[..]);
      if valid {
        return false;
      }
      var cached := CachedFor(pkt.pid);
      stats := stats.(repairActions := stats.repairActions + 1);
      if cached.Some? {
        CopyPacket(pending, cached.value);
        SetCc(pending, pkt.continuityCounter);
        stats := stats.(cleanTsPsiCacheRepairs := stats.cleanTsPsiCacheRepairs + 1);
      } else {
        MakeNullPacket(pending);
        stats := stats.(cleanTsNullPackets := stats.cleanTsNullPackets + 1, cleanTsBadPsiNulls := stats.cleanTsBadPsiNulls + 1);
      }
      replaced := true;
    }

    /** `repair_replace_tei_from_cache`. */
    method ReplaceTei(pkt: TsPacket) returns (replaced: bool)
      requires Valid() && pendingSize == 0
      modifies this`stats, pending
      ensures Valid()
      ensures var cached := P.CachedFor(psi.View(), pkt.pid);
              && replaced == cached.Some?
              && pending[..] == (if replaced then cached.value else old(pending[..]))
              && stats == if replaced
                          then old(stats).(psiCacheRepairs := old(stats).psiCacheRepairs + 1, repairActions := old(stats).repairActions + 1)
                          else old(stats).(unrepairableTransportErrors := old(stats).unrepairableTransportErrors + 1)
    {
      var cached := CachedFor(pkt.pid);
      replaced := cached.Some?;
      if replaced {
        CopyPacket(pending, cached.value);
        stats := stats.(psiCacheRepairs := stats.psiCacheRepairs + 1, repairActions := stats.repairActions + 1);
      } else {
        stats := stats.(unrepairableTransportErrors := stats.unrepairableTransportErrors + 1);
      }
    }

    /** The start of `process_packet`, up to the observers: the packet is in `pending`. */
    method Admit() returns (verdict: Verdict, pkt: TsPacket)
      requires Valid() && pendingSize == 0
      modifies this`stats, pending
      ensures Valid()
      ensures P.Admit(config, psi.View(), old(stats), old(pending[..])) ==
              match verdict
              case WriteNow => P.Final(stats, pending[..])
              case Gone => P.Lost(stats)
              case Onward => P.Pass(stats, pending[..], pkt)
    {
      hide Parse, NullPacket, P.CachedFor, P.ScreenTables, P.CountNull, P.CountLost;
      stats := stats.(packetsRead := stats.packetsRead + 1);
      var parsed := Parse(pending[..]);
      pkt := NoPacket();
      if parsed.None? {
        stats := stats.(invalidPackets := stats.invalidPackets + 1);
        if (config.sanitize || config.cleanTs) && !config.passthrough {
          MakeNullPacket(pending);
          stats := P.CountNull(config, stats);
        }
        return WriteNow, pkt;
      }
      pkt := parsed.value;
      if !config.passthrough && pkt.transportError {
        stats := stats.(transportErrorPackets := stats.transportErrorPackets + 1);
        var fromCache := ReplaceTei(pkt);
        if fromCache {
          parsed := Parse(pending[..]);
          if parsed.None? {
            stats := P.CountLost(stats);
            return Gone, pkt;
          }
          pkt := parsed.value;
        } else if config.sanitize || config.cleanTs {
          MakeNullPacket(pending);
          stats := P.CountNull(config, stats);
          return WriteNow, pkt;
        }
      }
      var replaced := ReplaceBadPsi(pkt);
      if replaced {
        parsed := Parse(pending[..]);
        if parsed.None? {
          stats := P.CountLost(stats);
          return Gone, pkt;
        }
        pkt := parsed.value;
      }
      verdict := Onward;
    }

    /** The observers: continuity first, then the tables. */
    method Learn(pkt: TsPacket)
      requires Valid() && pendingSize == 0 && Parse(pending[..]) == Some(pkt)
      modifies this`stats, continuity.pid, psi
      ensures Valid() && StateView() == P.Learn(old(StateView()), old(pending[..]), pkt)
      ensures pending[..] == old(pending[..])
    {
      hide Parse, C.ObservePid, T.Observe;
      stats := continuity.Observe(pkt, stats);
      psi.Observe(pkt, pending[..]);
    }

    /** `clean_ts_pid_allowed`. */
    predicate PidAllowed(pid: nat)
      reads this, psi
      ensures PidAllowed(pid) == P.Allowed(psi.View(), pid, config.dropAudio)
    {
      if pid == NULL_PID || pid == 0 then true
      else if !psi.hasPmt then true
      else if pid == psi.primaryPmtPid || pid == psi.pcrPid then true
      else if T.Listed(pid, psi.video) then true
      else !config.dropAudio && T.Listed(pid, psi.audio)
    }

    /** The PID filter of cleaning mode. */
    method FilterPid(pkt: TsPacket)
      requires Valid() && pendingSize == 0
      modifies this`stats, pending
      ensures Valid() && (StateView(), pending[..]) == P.Filter(config, old(StateView()), old(pending[..]), pkt)
    {
      hide P.Allowed, NullPacket;
      if config.cleanTs && !config.passthrough && !PidAllowed(pkt.pid) {
        MakeNullPacket(pending);
        stats := stats.(cleanTsNullPackets := stats.cleanTsNullPackets + 1,
                        cleanTsFilteredPids := stats.cleanTsFilteredPids + 1,
                        repairActions := stats.repairActions + 1);
      }
    }

    /** The rewriters of cleaning mode. */
    method Rewrite()
      requires Valid() && pendingSize == 0
      modifies this`stats, pending, cleanCcValid, cleanNextCc, cleanVideoCcValid, cleanVideoNextCc, cleanTime
      ensures Valid() && (StateView(), pending[..]) == P.Rewrite(config, old(StateView()), old(pending[..]))
    {
      hide Parse, P.RewritePsiCc, P.RewriteVideoCc, S.Smooth;
      if !config.cleanTs || config.passthrough {
        return;
      }
      var parsed := Parse(pending[..]);
      if parsed.None? {
        return;
      }
      var pkt := parsed.value;
      var changed, pcr, pts := false, false, false;
      InPlace.RewritePsiCc(psi, pkt, pending, cleanCcValid, cleanNextCc);
      if config.smoothVideoCc {
        changed := InPlace.RewriteVideoCc(psi, pkt, pending, cleanVideoCcValid, cleanVideoNextCc);
      }
      if config.smoothTimestamps {
        pcr, pts := cleanTime.Smooth(psi, pkt, pending);
      }
      stats := stats.(
        cleanTsMediaCcRewrites := stats.cleanTsMediaCcRewrites + P.CountIf(changed),
        cleanTsPcrRewrites := stats.cleanTsPcrRewrites + P.CountIf(pcr),
        cleanTsPtsRewrites := stats.cleanTsPtsRewrites + P.CountIf(pts),
        repairActions := stats.repairActions + P.CountIf(changed) + P.CountIf(pcr) + P.CountIf(pts));
    }

    /** The end of `process_packet`: due tables first, then the packet. */
    method Deliver() returns (ok: bool)
      requires Valid() && pendingSize == 0
      modifies this`stats, this`attempts, this`log, this`lastInject
      ensures Valid() && (StateView(), ok) == P.Deliver(config, world, old(StateView()), pending[..])
    {
      hide P.Inject, P.Write, PsiContext.View;
      ok := true;
      if !config.passthrough {
        ok := MaybeInjectPsi();
      }
      if ok {
        ok := WritePacket(pending[..], false);
      }
    }

    /** Admission and the state it leaves. */
    method Screen() returns (verdict: Verdict, pkt: TsPacket)
      requires Valid() && pendingSize == 0
      modifies this`stats, pending
      ensures Valid() && StateView() == old(StateView()).(stats := StateView().stats)
      ensures P.Admit(config, old(StateView()).psi, old(StateView()).stats, old(pending[..])) ==
              match verdict
              case WriteNow => P.Final(StateView().stats, pending[..])
              case Gone => P.Lost(StateView().stats)
              case Onward => P.Pass(StateView().stats, pending[..], pkt)
    {
      hide P.Admit, PsiContext.View;
      verdict, pkt := Admit();
    }

    /** `process_packet`, on the packet gathered in `pending`. */
    method ProcessPacket() returns (ok: bool)
      requires Valid() && pendingSize == 0
      modifies Repr()
      ensures Valid() && (StateView(), ok) == P.Process(config, world, old(StateView()), old(pending[..]))
      ensures pendingSize == 0 && bytesDropped == old(bytesDropped) && resyncCount == old(resyncCount)
      ensures failed == old(failed) && skipping == old(skipping)
    {
      hide P.Admit, P.Learn, P.Filter, P.Rewrite, P.Deliver, P.Write, PsiContext.View, StateView;
      var verdict, pkt := Screen();
      match verdict {
        case WriteNow =>
          ok := WritePacket(pending[..], false);
        case Gone =>
          ok := true;
        case Onward =>
          Learn(pkt);
          FilterPid(pkt);
          Rewrite();
          ok := Deliver();
      }
    }

    /** Appends bytes to the packet being gathered. */
    method Gather(bytes: seq<byte>)
      requires Valid() && bytes != [] && pendingSize + |bytes| <= PACKET_SIZE
      modifies this`pendingSize, this`skipping, pending
      ensures pendingSize == old(pendingSize) + |bytes| && !skipping
      ensures pending[..pendingSize] == old(pending[..pendingSize]) + bytes
    {
      skipping := false;
      var at := pendingSize;
      for i := 0 to |bytes|
        invariant pendingSize == at && !skipping
        invariant pending[..at] == old(pending[..pendingSize])
        invariant forall k :: 0 <= k < i ==> pending[at + k] == bytes[k]
      {
        pending[at + i] := bytes[i];
      }
      assert pending[..at + |bytes|] == pending[..at] + bytes;
      pendingSize := at + |bytes|;
    }

    /** A byte that cannot start a packet. */
    method SkipByte(b: byte)
      requires Valid() && !failed && pendingSize == 0 && b != SYNC_BYTE
      modifies this`bytesDropped, this`resyncCount, this`skipping
      ensures Valid() && View() == FeedByte(R.Step(config, world), old(View()), b)
    {
      hide P.Process;
      ghost var st := StateView();
      bytesDropped := bytesDropped + 1;
      if !skipping {
        resyncCount := resyncCount + 1;
      }
      skipping := true;
      assert StateView() == st && pending[..0] == [];
    }

    /** Bytes of a packet gathered; a packet they complete is ready in the buffer. */
    method TakeBytes(bytes: seq<byte>) returns (full: bool)
      requires Valid() && bytes != [] && pendingSize + |bytes| <= PACKET_SIZE && (pendingSize == 0 ==> bytes[0] == SYNC_BYTE)
      modifies this`pendingSize, this`skipping, pending
      ensures Valid() && StateView() == old(StateView()) && !skipping
      ensures full == (old(pendingSize) + |bytes| == PACKET_SIZE)
      ensures full ==> pendingSize == 0 && pending[..] == old(pending[..pendingSize]) + bytes
      ensures !full ==> pendingSize > 0 && pending[..pendingSize] == old(pending[..pendingSize]) + bytes
    {
      ghost var st := StateView();
      Gather(bytes);
      full := pendingSize == PACKET_SIZE;
      if full {
        pendingSize := 0;
      }
      assert psi.View() == st.psi && cleanTime.View() == st.time && continuity.View() == st.watch;
    }

    /** The 188th byte has come: the packet is handled. */
    method HandlePacket(ghost c: R.Ctx, ghost bytes: seq<byte>)
      requires Valid() && pendingSize == 0 && !failed && !skipping
      requires !c.failed && bytes != [] && |c.framer.pending| + |bytes| == PACKET_SIZE
      requires c.framer.pending == [] ==> bytes[0] == SYNC_BYTE
      requires c.st == StateView() && c.framer.pending + bytes == pending[..]
      requires c.framer.bytesDropped == bytesDropped && c.framer.resyncCount == resyncCount
      modifies Repr()
      ensures Valid() && View() == FeedBytes(R.Step(config, world), c, bytes)
    {
      hide P.Process, PsiContext.View;
      Complete(R.Step(config, world), c, bytes);
      assert pending[..0] == [];
      var ok := ProcessPacket();
      failed := !ok;
    }

    /** One turn of the feed loop on the bytes still to come: skips one, or takes up to a packet's end. */
    method Take(data: seq<byte>) returns (n: nat)
      requires Valid() && !failed && data != []
      modifies Repr()
      ensures Valid() && 0 < n <= |data|
      ensures View() == FeedBytes(R.Step(config, world), old(View()), data[..n])
    {
      hide P.Process, StateView;
      ghost var c := View();
      if pendingSize == 0 && data[0] != SYNC_BYTE {
        SkipByte(data[0]);
        FeedOne(R.Step(config, world), c, data[0]);
        assert data[..1] == [data[0]];
        return 1;
      }
      n := PACKET_SIZE - pendingSize;
      if n > |data| {
        n := |data|;
      }
      var full := TakeBytes(data[..n]);
      if full {
        HandlePacket(c, data[..n]);
      } else {
        Framing.Gather(R.Step(config, world), c, data[..n]);
      }
    }

    /** `scatterfix_feed`. */
    method Feed(data: seq<byte>) returns (ok: bool)
      requires Valid()
      modifies Repr()
      ensures Valid() && View() == FeedBytes(R.Step(config, world), old(View()), data)
      ensures ok == !failed
    {
      hide P.Process, FeedByte;
      ghost var c := View();
      if failed {
        FailedStays(R.Step(config, world), c, data);
        return false;
      }
      var at := 0;
      while at < |data|
        invariant Valid() && !failed && at <= |data|
        invariant View() == FeedBytes(R.Step(config, world), c, data[..at])
      {
        ghost var before := View();
        var n := Take(data[at..]);
        FeedChunks(R.Step(config, world), c, data[..at], data[at..][..n]);
        assert data[..at] + data[at..][..n] == data[..at + n];
        at := at + n;
        if failed {
          FeedChunks(R.Step(config, world), c, data[..at], data[at..]);
          assert data[..at] + data[at..] == data;
          FailedStays(R.Step(config, world), View(), data[at..]);
          return false;
        }
      }
      assert data[..at] == data;
      ok := true;
    }

    /** `scatterfix_finish`. */
    method Finish() returns (ok: bool)
      requires Valid()
      modifies this
      ensures Valid() && View() == R.FinishCtx(old(View()))
      ensures ok == !failed
    {
      if failed {
        return false;
      }
      if pendingSize != 0 {
        bytesDropped := bytesDropped + pendingSize;
        stats := stats.(packetsDropped := stats.packetsDropped + 1);
        pendingSize := 0;
      }
      ok := true;
    }

    /** `memset` of one counter table. */
    method ClearTable(valid: array<bool>, next: array<C.nibble>)
      requires valid.Length == next.Length == PID_COUNT
      modifies valid, next
      ensures C.CcArrays(valid[..], next[..]) == C.BlankTable()
    {
      for i := 0 to PID_COUNT
        invariant forall k :: 0 <= k < i ==> !valid[k] && next[k] == 0
      {
        valid[i], next[i] := false, 0;
      }
      assert valid[..] == C.BlankTable().valid && next[..] == C.BlankTable().next;
    }

    /** What has been learned goes. */
    method Forget()
      requires Valid()
      modifies this`lastInject, this`log, psi, continuity.pid, cleanTime, cleanCcValid, cleanNextCc, cleanVideoCcValid, cleanVideoNextCc
      ensures Valid() && StateView() == P.ResetState(old(StateView()))
    {
      hide T.InitialPsi, C.BlankTable, PsiContext.View, S.FreshTime, FramerValid;
      psi.Init();
      continuity.Init();
      cleanTime.Init();
      lastInject := 0;
      ClearTable(cleanCcValid, cleanNextCc);
      ClearTable(cleanVideoCcValid, cleanVideoNextCc);
      log := [];
    }

    /** `scatterfix_reset`. */
    method Reset()
      requires Valid()
      modifies Repr()
      ensures Valid() && View() == R.ResetCtx(old(View()))
    {
      hide PsiContext.View, P.ResetState;
      Forget();
      ghost var st := StateView();
      pendingSize := 0;
      failed, skipping := false, false;
      assert StateView() == st && pending[..0] == [];
    }
  }

  /** What is left to do with a packet after admission. */
  datatype Verdict = WriteNow | Gone | Onward
}
