// Every byte fed to the recovery engine is accounted for (src/recovery.c:284-287, 336-355).
module RecoveryAccounts {
  import opened Bytes
  import opened TsPackets
  import opened RankModels
  import opened Framing
  import opened RecoverySpec
  import opened RecoveryRuns
  import opened RecoveryPreview

  lemma FinishKeepsReceived(cfg: Config, w: World, st: Rec, partial: bool)
    requires FinishPes(cfg, w, st, partial).1
    ensures FinishPes(cfg, w, st, partial).0.counters.packetsReceived == st.counters.packetsReceived
  {
    hide FinishPes;
    if partial {
      PartialKeepsCore(cfg, w, st);
    } else if st.current[PACKETS] != 0.0 {
      FinalCore(cfg, w, st);
    } else {
      NothingToFinish(cfg, w, st);
    }
  }

  lemma NothingToFinish(cfg: Config, w: World, st: Rec)
    requires st.current[PACKETS] == 0.0
    ensures FinishPes(cfg, w, st, false).0 == st
  {
  }

  lemma LearnKeepsReceived(cfg: Config, st: Rec, pkt: TsPacket, raw: Raw)
    requires Parse(raw) == Some(pkt)
    ensures Learn(cfg, st, pkt, raw).counters.packetsReceived == st.counters.packetsReceived
  {
    hide Parse;
  }

  lemma TakeKeepsReceived(cfg: Config, w: World, st: Rec, pkt: TsPacket, raw: Raw)
    requires Layout(pkt)
    ensures Take(cfg, w, st, pkt, raw).counters.packetsReceived == st.counters.packetsReceived
  {
    hide CountPacket;
  }

  /** A packet that is handled counts as one received, whatever it is. */
  lemma PacketReceived(cfg: Config, w: World, st: Rec, raw: Raw)
    requires Packet(cfg, w, st, raw).1
    ensures Packet(cfg, w, st, raw).0.counters.packetsReceived == st.counters.packetsReceived + 1
  {
    hide Parse, Learn, FinishPes, Take;
    if Parse(raw).Some? {
      var pkt := Parse(raw).value;
      LearnKeepsReceived(cfg, CountReceived(st), pkt, raw);
      var st1 := Learn(cfg, CountReceived(st), pkt, raw);
      if pkt.pid == st1.pid && pkt.hasPayload {
        if pkt.payloadUnitStart {
          FinishKeepsReceived(cfg, w, st1, false);
        }
        TakeKeepsReceived(cfg, w, if pkt.payloadUnitStart then FinishPes(cfg, w, st1, false).0 else st1, pkt, raw);
      }
    }
  }

  /** Bytes in packets, discarded, and pending. */
  function Accounted(c: Fed<Rec>): nat
  {
    PACKET_SIZE * c.st.counters.packetsReceived + c.framer.bytesDropped + |c.framer.pending|
  }

  lemma {:induction false} FeedAccounts(cfg: Config, w: World, c: Fed<Rec>, data: seq<byte>)
    ensures var r := FeedBytes(Step(cfg, w), c, data);
            !r.failed ==> !c.failed && Accounted(r) == Accounted(c) + |data|
  {
    hide Packet;
    if data != [] {
      var front := data[..|data| - 1];
      FeedAccounts(cfg, w, c, front);
      var c1 := FeedBytes(Step(cfg, w), c, front);
      var (framer, packet) := Push(c1.framer, data[|data| - 1]);
      if !c1.failed && packet.Some? && Packet(cfg, w, c1.st, packet.value).1 {
        PacketReceived(cfg, w, c1.st, packet.value);
      }
    }
  }

  predicate Balanced(c: Ctx)
  {
    !c.fed.failed ==> c.bytesReceived == Accounted(c.fed)
  }

  lemma CloseKeepsReceived(cfg: Config, w: World, st: Rec)
    requires Close(cfg, w, st).1
    ensures Close(cfg, w, st).0.counters.packetsReceived == st.counters.packetsReceived
  {
    hide FinishPes, Analyze;
    FinishKeepsReceived(cfg, w, st, false);
    AnalyzeKeepsCore(cfg, w, FinishPes(cfg, w, st, false).0);
  }

  /** On every run, as long as no call has failed since the last reset: bytes received since then = 188 * packets
      received + bytes discarded + bytes pending. */
  lemma {:induction false} RunBalanced(cfg: Config, w: World, calls: seq<Call>)
    ensures Balanced(Run(cfg, w, calls))
  {
    hide Packet, Preview, Close;
    if calls != [] {
      var c := Run(cfg, w, calls[..|calls| - 1]);
      RunBalanced(cfg, w, calls[..|calls| - 1]);
      match calls[|calls| - 1] {
        case Feed(data) =>
          FeedAccounts(cfg, w, c.fed, data);
        case Look =>
          PreviewKeepsCore(cfg, w, c.fed.st);
        case Finish =>
          if Close(cfg, w, c.fed.st).1 {
            CloseKeepsReceived(cfg, w, c.fed.st);
          }
        case Reset =>
      }
    }
  }
}
