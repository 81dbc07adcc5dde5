// What the continuity checker reports, told from the counters alone (src/continuity.c).
module ContinuityRecords {
  import opened Bytes
  import opened TsPackets
  import opened Statistics
  import opened Continuity

  // ---------- What there is to report ----------

  /** The packets of one PID. */
  function PacketsOf(raws: seq<Raw>, pid: nat): (r: seq<TsPacket>)
    ensures forall i :: 0 <= i < |r| ==> r[i].continuityCounter < 16
  {
    if raws == [] then [] else
    var last := Parse(raws[|raws| - 1]);
    PacketsOf(raws[..|raws| - 1], pid) + if last.Some? && last.value.pid == pid then [last.value] else []
  }

  /** The counter of the last packet with payload or with an announced discontinuity. */
  function Base(pkts: seq<TsPacket>): Option<nat>
  {
    if pkts == [] then None else
    var last := pkts[|pkts| - 1];
    if last.hasPayload || last.discontinuityIndicator then Some(last.continuityCounter) else Base(pkts[..|pkts| - 1])
  }

  /** How far the counter of the packet has moved on, if it counts: one in order, zero when repeated. */
  function Leap(before: seq<TsPacket>, pkt: TsPacket): (r: seq<nat>)
    ensures |r| <= 1
  {
    if pkt.hasPayload && !pkt.discontinuityIndicator && Base(before).Some?
    then [(pkt.continuityCounter - Base(before).value) % 16] else []
  }

  /** The leaps of one PID. */
  function Leaps(pkts: seq<TsPacket>): seq<nat>
  {
    if pkts == [] then [] else
    var front := pkts[..|pkts| - 1];
    Leaps(front) + Leap(front, pkts[|pkts| - 1])
  }

  /** The leaps of all PIDs but that of null packets. */
  function AllLeaps(raws: seq<Raw>): seq<nat>
  {
    if raws == [] then [] else
    var front, last := raws[..|raws| - 1], Parse(raws[|raws| - 1]);
    AllLeaps(front) + if last.Some? && last.value.pid != 0x1fff then Leap(PacketsOf(front, last.value.pid), last.value) else []
  }

  function CountIn(leaps: seq<nat>, low: nat, high: nat): nat
  {
    if leaps == [] then 0 else
    CountIn(leaps[..|leaps| - 1], low, high) + if low <= leaps[|leaps| - 1] <= high then 1 else 0
  }

  function SumIn(leaps: seq<nat>, low: nat, high: nat): nat
  {
    if leaps == [] then 0 else
    SumIn(leaps[..|leaps| - 1], low, high) + if low <= leaps[|leaps| - 1] <= high then leaps[|leaps| - 1] else 0
  }

  function Announced(pkts: seq<TsPacket>): nat
  {
    if pkts == [] then 0 else
    Announced(pkts[..|pkts| - 1]) + if pkts[|pkts| - 1].discontinuityIndicator then 1 else 0
  }

  // ---------- What is reported ----------

  /** The record of a PID is right about these packets. */
  predicate Tells(p: PidContinuity, pkts: seq<TsPacket>)
  {
    && p.packets == |pkts| && p.discontinuities == Announced(pkts)
    && p.seen == Base(pkts).Some? && (p.seen ==> p.lastCc == Base(pkts).value)
    && p.duplicates == CountIn(Leaps(pkts), 0, 0)
    && p.missing == SumIn(Leaps(pkts), 2, 8)
    && p.outOfOrder == CountIn(Leaps(pkts), 9, 15)
  }

  /** The totals are right about these leaps. */
  predicate TotalsTell(s: Stats, leaps: seq<nat>)
  {
    && s.duplicates == CountIn(leaps, 0, 0)
    && s.missingPackets == SumIn(leaps, 2, 8)
    && s.outOfOrder == CountIn(leaps, 9, 15)
    && s.continuityErrors == CountIn(leaps, 0, 0) + CountIn(leaps, 2, 15)
  }

  lemma CountMore(leaps: seq<nat>, more: seq<nat>, low: nat, high: nat)
    requires |more| <= 1
    ensures CountIn(leaps + more, low, high) == CountIn(leaps, low, high) + (if more != [] && low <= more[0] <= high then 1 else 0)
    ensures SumIn(leaps + more, low, high) == SumIn(leaps, low, high) + (if more != [] && low <= more[0] <= high then more[0] else 0)
  {
    if more == [] {
      assert leaps + more == leaps;
    } else {
      assert (leaps + more)[..|leaps|] == leaps;
    }
  }

  lemma PacketsMore(pkts: seq<TsPacket>, pkt: TsPacket)
    ensures Leaps(pkts + [pkt]) == Leaps(pkts) + Leap(pkts, pkt)
    ensures Base(pkts + [pkt]) == if pkt.hasPayload || pkt.discontinuityIndicator then Some(pkt.continuityCounter) else Base(pkts)
    ensures Announced(pkts + [pkt]) == Announced(pkts) + if pkt.discontinuityIndicator then 1 else 0
  {
    assert (pkts + [pkt])[..|pkts|] == pkts;
  }

  /** What a packet with this leap, if any, adds to the record and to the totals. */
  predicate Adds(p: PidContinuity, p': PidContinuity, s: Stats, s': Stats, leap: seq<nat>)
  {
    var missing := if leap != [] && 2 <= leap[0] <= 8 then leap[0] else 0;
    var duplicate := if leap != [] && leap[0] == 0 then 1 else 0;
    var disordered := if leap != [] && 9 <= leap[0] <= 15 then 1 else 0;
    && p'.missing == p.missing + missing && s'.missingPackets == s.missingPackets + missing
    && p'.duplicates == p.duplicates + duplicate && s'.duplicates == s.duplicates + duplicate
    && p'.outOfOrder == p.outOfOrder + disordered && s'.outOfOrder == s.outOfOrder + disordered
    && s'.continuityErrors == s.continuityErrors + if leap != [] && leap[0] != 1 then 1 else 0
  }

  predicate Counted(p: PidContinuity, p': PidContinuity, pkt: TsPacket)
  {
    && p'.packets == p.packets + 1
    && p'.discontinuities == p.discontinuities + (if pkt.discontinuityIndicator then 1 else 0)
    && p'.seen == (p.seen || pkt.hasPayload || pkt.discontinuityIndicator)
    && p'.lastCc == if pkt.hasPayload || pkt.discontinuityIndicator then pkt.continuityCounter else p.lastCc
  }

  lemma PacketAdds(p: PidContinuity, pkts: seq<TsPacket>, pkt: TsPacket, s: Stats)
    requires pkt.continuityCounter < 16 && (forall i :: 0 <= i < |pkts| ==> pkts[i].continuityCounter < 16)
    requires p.seen == Base(pkts).Some? && (p.seen ==> p.lastCc == Base(pkts).value)
    ensures var (p', s') := ObservePid(p, pkt, s);
            && Adds(p, p', s, s', Leap(pkts, pkt)) && Counted(p, p', pkt)
            && p'.seen == Base(pkts + [pkt]).Some? && (p'.seen ==> p'.lastCc == Base(pkts + [pkt]).value)
  {
    hide Base, Leap, ObservePid, Adds, LeapFits;
    PacketsMore(pkts, pkt);
    BaseSmall(pkts);
    LeapAt(pkts, pkt);
    if pkt.hasPayload && !pkt.discontinuityIndicator && p.seen {
      LeapIs(p.lastCc, pkt.continuityCounter);
      LeapAdds(p, pkt, s, (pkt.continuityCounter - p.lastCc) % 16);
    } else {
      NoLeapAdds(p, pkt, s);
    }
  }

  lemma LeapAt(pkts: seq<TsPacket>, pkt: TsPacket)
    ensures Leap(pkts, pkt) ==
            if pkt.hasPayload && !pkt.discontinuityIndicator && Base(pkts).Some?
            then [(pkt.continuityCounter - Base(pkts).value) % 16] else []
  {
  }

  lemma NoLeapAdds(p: PidContinuity, pkt: TsPacket, s: Stats)
    requires pkt.continuityCounter < 16 && !(pkt.hasPayload && !pkt.discontinuityIndicator && p.seen)
    ensures var (p', s') := ObservePid(p, pkt, s); Counted(p, p', pkt) && Adds(p, p', s, s', [])
  {
  }

  lemma LeapAdds(p: PidContinuity, pkt: TsPacket, s: Stats, leap: nat)
    requires pkt.continuityCounter < 16 && pkt.hasPayload && !pkt.discontinuityIndicator && p.seen && p.lastCc < 16
    requires LeapFits(leap, p.lastCc, pkt.continuityCounter)
    ensures var (p', s') := ObservePid(p, pkt, s); Counted(p, p', pkt) && Adds(p, p', s, s', [leap])
  {
    hide Gap;
  }

  /** One packet of the PID. */
  lemma PacketTells(p: PidContinuity, pkts: seq<TsPacket>, pkt: TsPacket, s: Stats, leaps: seq<nat>)
    requires pkt.continuityCounter < 16 && (forall i :: 0 <= i < |pkts| ==> pkts[i].continuityCounter < 16)
    requires Tells(p, pkts) && TotalsTell(s, leaps)
    ensures var (p', s') := ObservePid(p, pkt, s); Tells(p', pkts + [pkt]) && TotalsTell(s', leaps + Leap(pkts, pkt))
  {
    hide CountIn, SumIn, Leaps, Base, Announced, ObservePid, Leap;
    var leap := Leap(pkts, pkt);
    PacketAdds(p, pkts, pkt, s);
    PacketsMore(pkts, pkt);
    LeapSmall(pkts, pkt);
    MoreTold(Leaps(pkts), leap);
    MoreTold(leaps, leap);
  }

  lemma LeapSmall(pkts: seq<TsPacket>, pkt: TsPacket)
    ensures Leap(pkts, pkt) != [] ==> Leap(pkts, pkt)[0] < 16
  {
  }

  lemma MoreTold(leaps: seq<nat>, leap: seq<nat>)
    requires |leap| <= 1 && (leap != [] ==> leap[0] < 16)
    ensures CountIn(leaps + leap, 0, 0) == CountIn(leaps, 0, 0) + if leap != [] && leap[0] == 0 then 1 else 0
    ensures SumIn(leaps + leap, 2, 8) == SumIn(leaps, 2, 8) + if leap != [] && 2 <= leap[0] <= 8 then leap[0] else 0
    ensures CountIn(leaps + leap, 9, 15) == CountIn(leaps, 9, 15) + if leap != [] && 9 <= leap[0] <= 15 then 1 else 0
    ensures CountIn(leaps + leap, 0, 0) + CountIn(leaps + leap, 2, 15)
         == CountIn(leaps, 0, 0) + CountIn(leaps, 2, 15) + if leap != [] && leap[0] != 1 then 1 else 0
  {
    CountMore(leaps, leap, 0, 0);
    CountMore(leaps, leap, 2, 8);
    CountMore(leaps, leap, 9, 15);
    CountMore(leaps, leap, 2, 15);
    hide CountIn, SumIn;
  }

  predicate LeapFits(leap: nat, last: nat, cc: nat)
    requires last < 16 && cc < 16
  {
    && leap < 16
    && (cc == (last + 1) % 16 <==> leap == 1)
    && (cc == last <==> leap == 0)
    && (leap != 0 ==> Gap((last + 1) % 16, cc) == leap)
  }

  lemma LeapIs(last: nat, cc: nat)
    requires last < 16 && cc < 16
    ensures LeapFits((cc - last) % 16, last, cc)
  {
  }

  lemma {:induction false} BaseSmall(pkts: seq<TsPacket>)
    requires forall i :: 0 <= i < |pkts| ==> pkts[i].continuityCounter < 16
    ensures Base(pkts).Some? ==> Base(pkts).value < 16
  {
    if pkts != [] {
      BaseSmall(pkts[..|pkts| - 1]);
    }
  }

  /** The checker over a whole stream, with its totals. */
  function Checked(raws: seq<Raw>): (CcWatch, Stats)
  {
    if raws == [] then (BlankWatch(), InitialStats()) else
    var (watch, s) := Checked(raws[..|raws| - 1]);
    match Parse(raws[|raws| - 1])
    case None => (watch, s)
    case Some(pkt) => ObserveCc(watch, pkt, s)
  }

  /** For every stream the records and the totals are exactly these: a repeated counter is a duplicate, a leap of 2 to 8
      counts as that many packets missing, one of 9 to 15 as out of order; each of them is an error; an announced
      discontinuity is only counted, and gives a new base; packets without payload count for nothing else; null packets
      are left out. */
  lemma {:induction false} RecordsTell(raws: seq<Raw>)
    ensures TotalsTell(Checked(raws).1, AllLeaps(raws))
    ensures forall pid :: 0 <= pid < 0x1fff ==> Tells(Checked(raws).0[pid], PacketsOf(raws, pid))
  {
    hide Parse, Tells, TotalsTell, ObservePid;
    if raws == [] {
      NoLeapsTell(Checked(raws).1, AllLeaps(raws));
      forall pid | 0 <= pid < 0x1fff ensures Tells(Checked(raws).0[pid], PacketsOf(raws, pid)) {
        NoPacketsTell(PacketsOf(raws, pid));
      }
    } else {
      var front, last := raws[..|raws| - 1], Parse(raws[|raws| - 1]);
      RecordsTell(front);
      var (watch, s) := Checked(front);
      assert AllLeaps(front) + [] == AllLeaps(front);
      if last.Some? && last.value.pid != 0x1fff {
        var pkt := last.value;
        PacketTells(watch[pkt.pid], PacketsOf(front, pkt.pid), pkt, s, AllLeaps(front));
      }
      forall pid | 0 <= pid < 0x1fff
        ensures Tells(Checked(raws).0[pid], PacketsOf(raws, pid))
      {
        assert PacketsOf(front, pid) + [] == PacketsOf(front, pid);
      }
    }
  }

  lemma NoPacketsTell(pkts: seq<TsPacket>)
    requires pkts == []
    ensures Tells(BlankPid(), pkts)
  {
  }

  lemma NoLeapsTell(s: Stats, leaps: seq<nat>)
    requires s == InitialStats() && leaps == []
    ensures TotalsTell(s, leaps)
  {
  }
}
