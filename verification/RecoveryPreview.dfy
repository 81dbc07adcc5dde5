// Previews do not interfere (src/recovery.c:211-219, 225-283): what is recorded about the access units of a
// stream does not depend on when, or whether, the host asks for an early look, nor on what its callbacks and
// the decoder answer.
module RecoveryPreview {
  import opened Bytes
  import opened TsPackets
  import opened PsiTables
  import opened AnnexB
  import opened RankModels
  import opened Framing
  import opened RecoverySpec
  import opened RecoveryInvariants
  import opened RecoveryRuns

  /** The part of the state previews must not touch: tables, stream, PES buffer, evidence, counters and records. */
  datatype Core = Core(
    psi: Psi,
    pid: int,
    codec: Codec,
    pes: seq<byte>,
    dropping: bool,
    lastCc: int,
    current: Values,
    packetsReceived: nat,
    accessUnits: nat,
    oversizedUnits: nat,
    records: seq<Features>)

  function CoreOf(st: Rec): Core
  {
    Core(st.psi, st.pid, st.codec, st.pes, st.dropping, st.lastCc, st.current, st.counters.packetsReceived,
         st.counters.accessUnits, st.counters.oversizedUnits, st.out.records)
  }

  lemma AnalyzeKeepsCore(cfg: Config, w: World, st: Rec)
    ensures CoreOf(Analyze(cfg, w, st).0) == CoreOf(st)
  {
    hide Analyze, ImagesOk;
    AnalyzeOk(cfg, w, st);
  }

  lemma StoreKeepsCore(cfg: Config, st: Rec, scan: Scan, f: Features)
    requires ScanInside(scan)
    ensures CoreOf(Store(cfg, st, scan, f)) == CoreOf(st)
  {
    hide Evict, FindIndex, Others;
  }

  /** An early look leaves the core alone, whatever it emits. */
  lemma PreviewKeepsCore(cfg: Config, w: World, st: Rec)
    ensures CoreOf(Preview(cfg, w, st).0) == CoreOf(st)
  {
    PartialKeepsCore(cfg, w, st.(previewSize := |st.pes|));
    hide FinishPes, Analyze;
    var (st1, ok) :=
      if |st.pes| != st.previewSize && !st.dropping then FinishPes(cfg, w, st.(previewSize := |st.pes|), true) else (st, true);
    AnalyzeKeepsCore(cfg, w, st1);
  }

  lemma PartialKeepsCore(cfg: Config, w: World, st: Rec)
    ensures CoreOf(FinishPes(cfg, w, st, true).0) == CoreOf(st)
  {
    if st.current[PACKETS] != 0.0 {
      hide ScanPes, Store, Analyze;
      var scan := ScanPes(st);
      var f := UnitFeatures(st, scan);
      var st1 := Scanned(st, scan, true);
      StoreKeepsCore(cfg, st1, scan, f);
      AnalyzeKeepsCore(cfg, w, Store(cfg, st1, scan, f));
    }
  }

  // ---------- Two engines with the same core ----------

  /** Two worlds that agree on what the packets themselves contain. */
  ghost predicate SameEntropy(w: World, w': World)
  {
    forall payload: seq<byte> :: w.entropy(payload) == w'.entropy(payload)
  }

  /** What the split loop gathers besides headers. */
  predicate SameGathered(a: Scan, b: Scan)
  {
    a.values == b.values && a.data == b.data && a.keyOffset == b.keyOffset && a.keySize == b.keySize
  }

  lemma HeaderGathersNothing(scan: Scan, slot: nat, unit: seq<byte>)
    requires slot < 3
    ensures SameGathered(ScanHeader(scan, slot, unit), scan)
  {
  }

  lemma SliceIgnoresHeaders(a: Scan, b: Scan, codec: Codec, t: nat, size: nat)
    requires SameGathered(a, b)
    ensures SameGathered(ScanSlice(a, codec, t, size), ScanSlice(b, codec, t, size))
  {
  }

  lemma UnitIgnoresHeaders(codec: Codec, a: Scan, b: Scan, data: seq<byte>, u: Unit)
    requires SameGathered(a, b) && u.at + u.prefix < |data| && u.at <= u.end <= |data|
    ensures SameGathered(ScanUnit(codec, a, data, u), ScanUnit(codec, b, data, u))
  {
    hide HeaderSlot, IsKept, NalType, ScanHeader, ScanSlice, HasNalHeader;
    var t := NalType(codec, data[u.at + u.prefix]);
    var unit := data[u.at..u.end];
    var slot := HeaderSlot(codec, t);
    if slot.Some? {
      HeaderGathersNothing(a, slot.value, unit);
      HeaderGathersNothing(b, slot.value, unit);
    }
    SliceIgnoresHeaders(if slot.Some? then ScanHeader(a, slot.value, unit) else a,
                        if slot.Some? then ScanHeader(b, slot.value, unit) else b, codec, t, |unit|);
  }

  lemma {:induction false} ScanIgnoresHeaders(codec: Codec, a: Scan, b: Scan, data: seq<byte>, us: seq<Unit>)
    requires SameGathered(a, b)
    requires forall u :: u in us ==> u.at + u.prefix < |data| && u.at <= u.end <= |data|
    ensures SameGathered(ScanUnits(codec, a, data, us), ScanUnits(codec, b, data, us))
    decreases |us|
  {
    hide ScanUnit, SameGathered;
    if us != [] {
      UnitIgnoresHeaders(codec, a, b, data, us[0]);
      ScanIgnoresHeaders(codec, ScanUnit(codec, a, data, us[0]), ScanUnit(codec, b, data, us[0]), data, us[1..]);
    }
  }

  /** The record of an access unit is a matter of the core. */
  lemma RecordFromCore(a: Rec, b: Rec)
    requires CoreOf(a) == CoreOf(b) && a.current[PACKETS] != 0.0
    ensures UnitFeatures(a, ScanPes(a)) == UnitFeatures(b, ScanPes(b))
  {
    var es := Elementary(a.pes);
    var averaged := a.current[PACKET_CONFIDENCE := a.current[PACKET_CONFIDENCE] / a.current[PACKETS]];
    ScanIgnoresHeaders(a.codec, Scan(a.headers, a.headerVersion, a.dirty, averaged, [], 0, 0),
                       Scan(b.headers, b.headerVersion, b.dirty, averaged, [], 0, 0), es, Split(es));
  }

  /** Closing an access unit successfully has the same effect on the core of both. */
  lemma FinishFromCore(cfg: Config, w: World, w': World, a: Rec, b: Rec)
    requires CoreOf(a) == CoreOf(b)
    requires FinishPes(cfg, w, a, false).1 && FinishPes(cfg, w', b, false).1
    ensures CoreOf(FinishPes(cfg, w, a, false).0) == CoreOf(FinishPes(cfg, w', b, false).0)
  {
    if a.current[PACKETS] != 0.0 {
      RecordFromCore(a, b);
      FinalCore(cfg, w, a);
      FinalCore(cfg, w', b);
    }
  }

  /** The core after a finished access unit. */
  function ClosedCore(c: Core, f: Features): Core
  {
    c.(current := ZeroValues(), pes := [], dropping := false, accessUnits := c.accessUnits + 1, records := c.records + [f])
  }

  lemma FinalCore(cfg: Config, w: World, st: Rec)
    requires st.current[PACKETS] != 0.0 && FinishPes(cfg, w, st, false).1
    ensures CoreOf(FinishPes(cfg, w, st, false).0) == ClosedCore(CoreOf(st), UnitFeatures(st, ScanPes(st)))
  {
    hide ScanPes, Store, Analyze, UnitFeatures;
    var scan := ScanPes(st);
    var f := UnitFeatures(st, scan);
    var st2 := Record(Scanned(st, scan, false), f);
    StoreKeepsCore(cfg, st2, scan, f);
    AnalyzeKeepsCore(cfg, w, StartUnit(Store(cfg, st2, scan, f)));
  }

  lemma SwitchFromCore(a: Rec, b: Rec, pid: nat, codec: Codec)
    requires CoreOf(a) == CoreOf(b)
    ensures CoreOf(Switch(a, pid, codec)) == CoreOf(Switch(b, pid, codec))
  {
  }

  lemma LearnFromCore(cfg: Config, a: Rec, b: Rec, pkt: TsPacket, raw: Raw)
    requires Parse(raw) == Some(pkt) && CoreOf(a) == CoreOf(b)
    ensures CoreOf(Learn(cfg, a, pkt, raw)) == CoreOf(Learn(cfg, b, pkt, raw))
  {
    hide Parse, Observe, Choose, Switch;
    var psi := Observe(a.psi, pkt, raw);
    var chosen := Choose(cfg, psi.video, 0);
    if chosen.Some? {
      SwitchFromCore(a.(psi := psi), b.(psi := psi), chosen.value.pid, CodecOf(chosen.value.streamType));
    }
  }

  lemma TakeFromCore(cfg: Config, w: World, w': World, a: Rec, b: Rec, pkt: TsPacket, raw: Raw)
    requires CoreOf(a) == CoreOf(b) && SameEntropy(w, w') && Layout(pkt)
    ensures CoreOf(Take(cfg, w, a, pkt, raw)) == CoreOf(Take(cfg, w', b, pkt, raw))
  {
    hide CountPacket;
  }

  lemma ReceiveFromCore(cfg: Config, w: World, w': World, a: Rec, b: Rec, pkt: TsPacket, raw: Raw)
    requires CoreOf(a) == CoreOf(b) && SameEntropy(w, w') && Layout(pkt)
    requires Receive(cfg, w, a, pkt, raw).1 && Receive(cfg, w', b, pkt, raw).1
    ensures CoreOf(Receive(cfg, w, a, pkt, raw).0) == CoreOf(Receive(cfg, w', b, pkt, raw).0)
  {
    hide FinishPes, Take;
    if pkt.pid == a.pid && pkt.hasPayload {
      if pkt.payloadUnitStart {
        FinishFromCore(cfg, w, w', a, b);
        TakeFromCore(cfg, w, w', FinishPes(cfg, w, a, false).0, FinishPes(cfg, w', b, false).0, pkt, raw);
      } else {
        TakeFromCore(cfg, w, w', a, b, pkt, raw);
      }
    }
  }

  lemma PacketFromCore(cfg: Config, w: World, w': World, a: Rec, b: Rec, raw: Raw)
    requires CoreOf(a) == CoreOf(b) && SameEntropy(w, w')
    requires Packet(cfg, w, a, raw).1 && Packet(cfg, w', b, raw).1
    ensures CoreOf(Packet(cfg, w, a, raw).0) == CoreOf(Packet(cfg, w', b, raw).0)
  {
    hide Parse, Receive, Learn;
    if Parse(raw).Some? {
      var pkt := Parse(raw).value;
      LearnFromCore(cfg, CountReceived(a), CountReceived(b), pkt, raw);
      ReceiveFromCore(cfg, w, w', Learn(cfg, CountReceived(a), pkt, raw), Learn(cfg, CountReceived(b), pkt, raw), pkt, raw);
    }
  }

  // ---------- Runs with and without previews ----------

  predicate SameCore(a: Ctx, b: Ctx)
  {
    && CoreOf(a.fed.st) == CoreOf(b.fed.st)
    && a.fed.framer == b.fed.framer
    && a.bytesReceived == b.bytesReceived
  }

  predicate Healthy(a: Fed<Rec>, b: Fed<Rec>)
  {
    !a.failed && !b.failed && a.framer == b.framer && CoreOf(a.st) == CoreOf(b.st)
  }

  lemma {:induction false} FeedFromCore(cfg: Config, w: World, w': World, a: Fed<Rec>, b: Fed<Rec>, data: seq<byte>)
    requires Healthy(a, b) && SameEntropy(w, w')
    requires !FeedBytes(Step(cfg, w), a, data).failed && !FeedBytes(Step(cfg, w'), b, data).failed
    ensures Healthy(FeedBytes(Step(cfg, w), a, data), FeedBytes(Step(cfg, w'), b, data))
  {
    hide Packet, CoreOf, SameEntropy;
    if data != [] {
      var front := data[..|data| - 1];
      FeedFromCore(cfg, w, w', a, b, front);
      var a1, b1 := FeedBytes(Step(cfg, w), a, front), FeedBytes(Step(cfg, w'), b, front);
      var (framer, packet) := Push(a1.framer, data[|data| - 1]);
      if packet.Some? {
        PacketFromCore(cfg, w, w', a1.st, b1.st, packet.value);
      }
    }
  }

  lemma UpdateKeepsCore(st: Rec)
    ensures CoreOf(Update(st)) == CoreOf(st)
  {
  }

  lemma CloseFromCore(cfg: Config, w: World, w': World, a: Rec, b: Rec)
    requires CoreOf(a) == CoreOf(b)
    requires Close(cfg, w, a).1 && Close(cfg, w', b).1
    ensures CoreOf(Close(cfg, w, a).0) == CoreOf(Close(cfg, w', b).0)
  {
    hide FinishPes, Analyze;
    FinishFromCore(cfg, w, w', a, b);
    AnalyzeKeepsCore(cfg, w, FinishPes(cfg, w, a, false).0);
    AnalyzeKeepsCore(cfg, w', FinishPes(cfg, w', b, false).0);
  }

  lemma ResetFromCore(cfg: Config, a: Rec, b: Rec)
    ensures CoreOf(ResetRec(cfg, a)) == CoreOf(ResetRec(cfg, b))
  {
  }

  /** One call that is not a preview, on both sides. */
  lemma CallFromCore(cfg: Config, w: World, w': World, a: Ctx, b: Ctx, call: Call)
    requires SameCore(a, b) && !a.fed.failed && !b.fed.failed && SameEntropy(w, w') && !call.Look?
    requires !Apply(cfg, w, a, call).fed.failed && !Apply(cfg, w', b, call).fed.failed
    ensures SameCore(Apply(cfg, w, a, call), Apply(cfg, w', b, call))
  {
    hide CoreOf, Update, Close, ResetRec, SameEntropy;
    match call {
      case Feed(data) =>
        FeedFromCore(cfg, w, w', a.fed, b.fed, data);
        UpdateKeepsCore(FeedBytes(Step(cfg, w), a.fed, data).st);
        UpdateKeepsCore(FeedBytes(Step(cfg, w'), b.fed, data).st);
      case Finish =>
        CloseFromCore(cfg, w, w', a.fed.st, b.fed.st);
        UpdateKeepsCore(Close(cfg, w, a.fed.st).0);
        UpdateKeepsCore(Close(cfg, w', b.fed.st).0);
      case Reset =>
        ResetFromCore(cfg, a.fed.st, b.fed.st);
    }
  }

  lemma LookKeepsCore(cfg: Config, w: World, c: Ctx)
    ensures SameCore(c, AnalyzeCtx(cfg, w, c))
  {
    hide CoreOf, Update, Preview;
    PreviewKeepsCore(cfg, w, c.fed.st);
    UpdateKeepsCore(Preview(cfg, w, c.fed.st).0);
  }

  /** The calls without the previews. */
  function WithoutLooks(calls: seq<Call>): seq<Call>
  {
    if calls == [] then []
    else if calls[|calls| - 1].Look? then WithoutLooks(calls[..|calls| - 1])
    else WithoutLooks(calls[..|calls| - 1]) + [calls[|calls| - 1]]
  }

  /** No call of the run fails. */
  predicate Succeeds(cfg: Config, w: World, calls: seq<Call>)
  {
    !Run(cfg, w, calls).fed.failed && (calls != [] ==> Succeeds(cfg, w, calls[..|calls| - 1]))
  }

  /** Inserting previews anywhere in a run that does not fail leaves the records of the access units, their
      numbering, the PES buffer, the framing and the continuity state exactly as they are without any preview,
      even if callbacks and decoder then answer differently. */
  lemma {:induction false} PreviewsDoNotInterfere(cfg: Config, w: World, w': World, calls: seq<Call>)
    requires SameEntropy(w, w')
    requires Succeeds(cfg, w, calls) && Succeeds(cfg, w', WithoutLooks(calls))
    ensures SameCore(Run(cfg, w, calls), Run(cfg, w', WithoutLooks(calls)))
  {
    hide CoreOf, Apply, InitialCtx, SameEntropy;
    if calls != [] {
      var front, call := calls[..|calls| - 1], calls[|calls| - 1];
      var plain := WithoutLooks(front);
      if call.Look? {
        PreviewsDoNotInterfere(cfg, w, w', front);
        LookKeepsCore(cfg, w, Run(cfg, w, front));
        ApplyLook(cfg, w, Run(cfg, w, front));
      } else {
        assert (plain + [call])[..|plain + [call]| - 1] == plain;
        PreviewsDoNotInterfere(cfg, w, w', front);
        SucceedsLast(cfg, w, front);
        SucceedsLast(cfg, w', plain);
        CallFromCore(cfg, w, w', Run(cfg, w, front), Run(cfg, w', plain), call);
      }
    }
  }

  lemma ApplyLook(cfg: Config, w: World, c: Ctx)
    ensures Apply(cfg, w, c, Look) == AnalyzeCtx(cfg, w, c)
  {
  }

  lemma SucceedsLast(cfg: Config, w: World, calls: seq<Call>)
    requires Succeeds(cfg, w, calls)
    ensures !Run(cfg, w, calls).fed.failed
  {
  }
}
