// Exact loss accounting (src/recovery.c:279-281, 317-327): the evidence in the records, and in the unit still
// open, adds up to exactly the packets lost, as long as no burst is longer than the counter can tell.
module RecoveryLoss {
  import opened Bytes
  import opened TsPackets
  import opened PsiTables
  import opened AnnexB
  import opened RankModels
  import opened Framing
  import opened RecoverySpec
  import opened RecoveryInvariants
  import opened RecoveryRuns
  import opened RecoveryPreview

  function Sum(records: seq<Features>, i: nat): real
    requires i < FEATURE_COUNT
  {
    if records == [] then 0.0 else Sum(records[..|records| - 1], i) + records[|records| - 1].values[i]
  }

  /** One kind of evidence over all units of the stream, finished or open. */
  function Total(st: Rec, i: nat): real
    requires i < FEATURE_COUNT
  {
    Sum(st.out.records, i) + st.current[i]
  }

  lemma SumAppend(records: seq<Features>, f: Features, i: nat)
    requires i < FEATURE_COUNT
    ensures Sum(records + [f], i) == Sum(records, i) + f.values[i]
  {
    assert (records + [f])[..|records + [f]| - 1] == records;
  }

  /** Evidence the split loop does not touch. */
  predicate FromPackets(i: nat)
  {
    i == CC_ERRORS || i == MISSING_BY_CC
  }

  lemma {:induction false} ScanKeeps(codec: Codec, scan: Scan, data: seq<byte>, us: seq<Unit>, i: nat)
    requires FromPackets(i)
    requires forall u :: u in us ==> u.at + u.prefix < |data| && u.at <= u.end <= |data|
    ensures ScanUnits(codec, scan, data, us).values[i] == scan.values[i]
    decreases |us|
  {
    if us != [] {
      ScanUnitKeeps(codec, scan, data, us[0], i);
      hide ScanUnit;
      ScanKeeps(codec, ScanUnit(codec, scan, data, us[0]), data, us[1..], i);
    }
  }

  lemma ScanUnitKeeps(codec: Codec, scan: Scan, data: seq<byte>, u: Unit, i: nat)
    requires FromPackets(i) && u.at + u.prefix < |data| && u.at <= u.end <= |data|
    ensures ScanUnit(codec, scan, data, u).values[i] == scan.values[i]
  {
  }

  /** Closing a unit moves its evidence from the open unit to the records. */
  lemma FinishKeepsTotal(cfg: Config, w: World, st: Rec, i: nat)
    requires CurrentOk(st.current) && FromPackets(i) && FinishPes(cfg, w, st, false).1
    ensures var r := FinishPes(cfg, w, st, false).0;
            && Total(r, i) == Total(st, i) && CurrentOk(r.current)
            && r.lastCc == st.lastCc && r.pid == st.pid && r.codec == st.codec && r.psi == st.psi
  {
    if st.current[PACKETS] != 0.0 {
      FinalCore(cfg, w, st);
      ScannedKeeps(st, i);
      ZeroOk(i);
      hide ScanPes, FinishPes, HeuristicScore, Sum, ZeroValues, CurrentOk;
      var r := FinishPes(cfg, w, st, false).0;
      var f := UnitFeatures(st, ScanPes(st));
      assert CoreOf(r) == ClosedCore(CoreOf(st), f);
      SumAppend(st.out.records, f, i);
    }
  }

  lemma ZeroOk(i: nat)
    requires i < FEATURE_COUNT
    ensures CurrentOk(ZeroValues()) && ZeroValues()[i] == 0.0
  {
  }

  lemma ScannedKeeps(st: Rec, i: nat)
    requires st.current[PACKETS] != 0.0 && FromPackets(i)
    ensures ScanPes(st).values[i] == st.current[i]
  {
    hide ScanUnits, Split;
    var es := Elementary(st.pes);
    var averaged := st.current[PACKET_CONFIDENCE := st.current[PACKET_CONFIDENCE] / st.current[PACKETS]];
    ScanKeeps(st.codec, Scan(st.headers, st.headerVersion, st.dirty, averaged, [], 0, 0), es, Split(es), i);
  }

  // ---------- One packet ----------

  /** What one packet adds to the missing count or to the error count. */
  function Evidence(pkt: TsPacket, last: int, i: nat): real
    requires FromPackets(i)
  {
    if InOrder(pkt, last) then 0.0
    else if i == CC_ERRORS then 1.0
    else if 1 <= Delta(pkt, last) <= 8 then Delta(pkt, last) as real
    else 0.0
  }

  lemma CountEvidence(v: Values, pkt: TsPacket, payload: seq<byte>, entropy: real, last: int, i: nat)
    requires FromPackets(i)
    ensures CountPacket(v, pkt, payload, entropy, last)[i] == v[i] + Evidence(pkt, last, i)
  {
  }

  /** The packet selects no other stream. */
  predicate KeepsStream(cfg: Config, st: Rec, raw: Raw)
  {
    Parse(raw).Some? ==>
      var learned := Learn(cfg, st, Parse(raw).value, raw);
      learned == st.(psi := learned.psi)
  }

  predicate IsVideoOf(pid: int, raw: Raw)
  {
    Parse(raw).Some? && Parse(raw).value.pid == pid && Parse(raw).value.hasPayload
  }

  predicate IsVideo(st: Rec, raw: Raw)
  {
    IsVideoOf(st.pid, raw)
  }

  lemma TakeTotal(cfg: Config, w: World, st: Rec, pkt: TsPacket, raw: Raw, i: nat)
    requires Layout(pkt) && FromPackets(i) && CurrentOk(st.current)
    ensures var r := Take(cfg, w, st, pkt, raw);
            && Total(r, i) == Total(st, i) + Evidence(pkt, Reference(pkt, st.lastCc), i)
            && CurrentOk(r.current) && r.pid == st.pid && r.lastCc == pkt.continuityCounter
  {
    var payload := Payload(pkt, raw);
    CountEvidence(st.current, pkt, payload, w.entropy(payload), Reference(pkt, st.lastCc), i);
    CountOk(st.current, pkt, payload, w.entropy(payload), Reference(pkt, st.lastCc));
    hide CountPacket, CurrentOk, Evidence;
  }

  /** Each packet adds its own evidence to the total and nothing else. */
  lemma PacketTotal(cfg: Config, w: World, st: Rec, raw: Raw, i: nat)
    requires FromPackets(i) && CurrentOk(st.current) && Packet(cfg, w, st, raw).1
    requires KeepsStream(cfg, CountReceived(st), raw)
    ensures var r := Packet(cfg, w, st, raw).0;
            && CurrentOk(r.current) && r.pid == st.pid
            && (IsVideo(st, raw) ==>
                  && Total(r, i) == Total(st, i) + Evidence(Parse(raw).value, Reference(Parse(raw).value, st.lastCc), i)
                  && r.lastCc == Parse(raw).value.continuityCounter)
            && (!IsVideo(st, raw) ==> Total(r, i) == Total(st, i) && r.lastCc == st.lastCc)
  {
    hide Parse, Learn, FinishPes, Take, CurrentOk, Evidence, Reference;
    if Parse(raw).Some? {
      var pkt := Parse(raw).value;
      var st1 := Learn(cfg, CountReceived(st), pkt, raw);
      assert Total(st1, i) == Total(st, i);
      if IsVideo(st, raw) {
        if pkt.payloadUnitStart {
          FinishKeepsTotal(cfg, w, st1, i);
          TakeTotal(cfg, w, FinishPes(cfg, w, st1, false).0, pkt, raw, i);
        } else {
          TakeTotal(cfg, w, st1, pkt, raw, i);
        }
      }
    }
  }

  // ---------- A reception with losses ----------

  /** The run neither fails nor changes the stream. */
  predicate Undisturbed(cfg: Config, w: World, st: Rec, raws: seq<Raw>)
    decreases |raws|
  {
    raws != [] ==>
      && KeepsStream(cfg, CountReceived(st), raws[0])
      && Packet(cfg, w, st, raws[0]).1
      && Undisturbed(cfg, w, Packet(cfg, w, st, raws[0]).0, raws[1..])
  }

  /** What arrives of a video stream whose packets are numbered and carry the counter `(base + number) % 16`:
      `at[i]` is the number of the last video packet received up to `raws[i]`. Bursts of up to 8 packets are lost
      and no discontinuity is announced; packets of other PIDs may come in between. */
  predicate Reception(pid: int, raws: seq<Raw>, at: seq<nat>, start: nat, base: nat)
    requires |at| == |raws|
    decreases |raws|
  {
    raws != [] ==>
      var parsed := Parse(raws[0]);
      && (if IsVideoOf(pid, raws[0]) then
            && start < at[0] <= start + 9
            && parsed.value.continuityCounter == (base + at[0]) % 16
            && !parsed.value.discontinuityIndicator
          else at[0] == start)
      && Reception(pid, raws[1..], at[1..], at[0], base)
  }

  /** Packets lost in a reception. */
  function Lost(at: seq<nat>, start: nat): nat
  {
    if at == [] then 0 else (if at[0] > start + 1 then at[0] - start - 1 else 0) + Lost(at[1..], at[0])
  }

  /** Bursts of lost packets. */
  function Bursts(at: seq<nat>, start: nat): nat
  {
    if at == [] then 0 else (if at[0] > start + 1 then 1 else 0) + Bursts(at[1..], at[0])
  }

  function Losses(at: seq<nat>, start: nat, i: nat): nat
    requires FromPackets(i)
  {
    if i == CC_ERRORS then Bursts(at, start) else Lost(at, start)
  }

  /** The counter tells a gap of up to eight packets exactly. */
  lemma GapIsExact(pkt: TsPacket, start: nat, now: nat, base: nat, i: nat)
    requires FromPackets(i) && start < now <= start + 9 && pkt.continuityCounter == (base + now) % 16
    ensures Evidence(pkt, (base + start) % 16, i) ==
            if i == CC_ERRORS then (if now > start + 1 then 1.0 else 0.0) else (now - start - 1) as real
  {
    var gap := now - start;
    assert (base + now) % 16 == ((base + start) % 16 + gap) % 16;
    assert Delta(pkt, (base + start) % 16) == gap - 1;
  }

  lemma LossesStep(at: seq<nat>, start: nat, i: nat)
    requires FromPackets(i) && at != [] && start <= at[0]
    ensures Losses(at, start, i) ==
            Losses(at[1..], at[0], i)
            + if at[0] > start + 1 then (if i == CC_ERRORS then 1 else at[0] - start - 1) else 0
  {
  }

  /** Numbering starts at the first video packet received: nothing can be told of packets before it. */
  predicate StartsNext(pid: int, raws: seq<Raw>, at: seq<nat>, start: nat)
    requires |at| == |raws|
    decreases |raws|
  {
    raws != [] ==> if IsVideoOf(pid, raws[0]) then at[0] == start + 1 else StartsNext(pid, raws[1..], at[1..], start)
  }

  /** The counter last seen, if any, is that of packet `start`; without one the first packet received is the next. */
  predicate Tuned(pid: int, last: int, raws: seq<Raw>, at: seq<nat>, start: nat, base: nat)
    requires |at| == |raws|
  {
    if last < 0 then StartsNext(pid, raws, at, start) else last == (base + start) % 16
  }

  /** What the first packet of a reception says, and what is left of the reception. */
  lemma FirstSays(pid: int, last: int, raws: seq<Raw>, at: seq<nat>, start: nat, base: nat, i: nat)
    requires FromPackets(i) && |at| == |raws| && raws != []
    requires Reception(pid, raws, at, start, base) && Tuned(pid, last, raws, at, start, base)
    ensures Reception(pid, raws[1..], at[1..], at[0], base)
    ensures if IsVideoOf(pid, raws[0]) then
              var pkt := Parse(raws[0]).value;
              && Tuned(pid, pkt.continuityCounter, raws[1..], at[1..], at[0], base)
              && Evidence(pkt, Reference(pkt, last), i) + Losses(at[1..], at[0], i) as real == Losses(at, start, i) as real
            else
              Tuned(pid, last, raws[1..], at[1..], at[0], base) && Losses(at[1..], at[0], i) == Losses(at, start, i)
  {
    hide Parse, Evidence, Reference;
    LossesStep(at, start, i);
    if IsVideoOf(pid, raws[0]) {
      var pkt := Parse(raws[0]).value;
      PlainReference(pkt, last);
      if last < 0 {
        NoGap(pkt, last, i);
      } else {
        GapIsExact(pkt, start, at[0], base, i);
      }
    }
  }

  lemma NoGap(pkt: TsPacket, last: int, i: nat)
    requires FromPackets(i) && last < 0
    ensures Evidence(pkt, last, i) == 0.0
  {
  }

  /** Over any such reception the missing count grows by exactly the packets lost and the error count by exactly
      the bursts, spread over however many access units. */
  lemma {:induction false} ExactLoss(cfg: Config, w: World, st: Rec, raws: seq<Raw>, at: seq<nat>, start: nat, base: nat, i: nat)
    requires FromPackets(i) && |at| == |raws|
    requires CurrentOk(st.current) && Tuned(st.pid, st.lastCc, raws, at, start, base)
    requires Undisturbed(cfg, w, st, raws) && Reception(st.pid, raws, at, start, base)
    ensures var (r, ok) := ProcessAll(Step(cfg, w), st, raws);
            ok && Total(r, i) == Total(st, i) + Losses(at, start, i) as real
    decreases |raws|
  {
    hide Parse, Packet, CurrentOk, Learn, Total, Evidence, Reference, Tuned, Losses;
    if raws == [] {
      NothingLost(at, start, i);
    } else {
      var raw := raws[0];
      PacketTotal(cfg, w, st, raw, i);
      FirstSays(st.pid, st.lastCc, raws, at, start, base, i);
      ExactLoss(cfg, w, Packet(cfg, w, st, raw).0, raws[1..], at[1..], at[0], base, i);
    }
  }

  lemma NothingLost(at: seq<nat>, start: nat, i: nat)
    requires FromPackets(i) && at == []
    ensures Losses(at, start, i) == 0
  {
  }

  lemma PlainReference(pkt: TsPacket, last: int)
    requires !pkt.discontinuityIndicator
    ensures Reference(pkt, last) == last
  {
  }
}
