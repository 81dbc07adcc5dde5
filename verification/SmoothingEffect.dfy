// What smoothing makes of one packet, told from the packets that went out before it (src/scatterfix.c:196-276).
module SmoothingEffects {
  import opened Bytes
  import opened TsPackets
  import opened PsiTables
  import opened Timestamps

  // ---------- Where the stamps stand ----------

  /** The packet opens a PES with a presentation time. */
  predicate OpensPes(pkt: TsPacket, raw: Raw)
    requires Layout(pkt)
  {
    && pkt.payloadUnitStart && pkt.hasPayload && pkt.payloadSize >= 14
    && var off := pkt.payloadOffset;
       && raw[off] == 0 && raw[off + 1] == 0 && raw[off + 2] == 1
       && N(raw[off + 7]) >= 128 && off + 9 + N(raw[off + 8]) <= 188
  }

  /** A decoding time follows it. */
  predicate CarriesDts(pkt: TsPacket, raw: Raw)
    requires Layout(pkt)
  {
    OpensPes(pkt, raw) && N(raw[pkt.payloadOffset + 7]) / 64 == 3 && pkt.payloadOffset + 19 <= 188
  }

  predicate CarriesPcr(pkt: TsPacket, raw: Raw)
  {
    pkt.hasPcr && N(raw[3]) / 16 != 1 && N(raw[4]) >= 7
  }

  /** Five bytes with four bits in front, three markers and a 33-bit number between them. */
  lemma StampLayout(raw: Raw, at: nat, front: nat, a: nat, b: nat, c: nat, d: nat, e: nat, m0: nat, m1: nat, m2: nat)
    requires at + 5 <= PACKET_SIZE && front < 16 && a < 8 && b < 256 && c < 128 && d < 256 && e < 128 && m0 < 2 && m1 < 2 && m2 < 2
    requires raw[at] == front * 16 + a * 2 + m0 && raw[at + 1] == b && raw[at + 2] == c * 2 + m1 && raw[at + 3] == d
    requires raw[at + 4] == e * 2 + m2
    ensures ReadPts33(raw, at) == ((((a * 256) + b) * 128 + c) * 256 + d) * 128 + e
  {
    FrontDigit(front, a, m0);
    LowDigit(c, m1);
    LowDigit(e, m2);
  }

  lemma FrontDigit(front: nat, a: nat, m: nat)
    requires front < 16 && a < 8 && m < 2
    ensures (front * 16 + a * 2 + m) / 2 % 8 == a
  {
  }

  lemma LowDigit(c: nat, m: nat)
    requires m < 2
    ensures (c * 2 + m) / 2 == c
  {
  }

  // ---------- In place ----------

  /** The stamp comes 3600 to 93600 ticks after the last one out, if there was one. */
  predicate InPlaceAfter(trail: seq<nat>, stamp: nat)
  {
    trail == [] || 3600 <= (stamp - trail[|trail| - 1]) % 0x2_0000_0000 <= 93600
  }

  predicate Near(a: nat, b: nat)
  {
    -90000 <= PtsDelta(a, b) <= 90000
  }

  lemma DistanceAfter(last: nat, next: nat, stamp: nat)
    requires next % WRAP == (last + 3600) % WRAP
    ensures 0 <= PtsDelta(stamp, next) <= 90000 <==> 3600 <= (stamp - last) % WRAP <= 93600
  {
    if 0 <= PtsDelta(stamp, next) <= 90000 {
      AdvancesFrom(last, next, stamp);
    }
    if 3600 <= (stamp - last) % WRAP <= 93600 {
      var e := (stamp - last) % WRAP;
      SameResidue(next, last + 3600);
      var q := (stamp - last) / WRAP - (next / WRAP - (last + 3600) / WRAP);
      assert stamp - last == e + (stamp - last) / WRAP * WRAP;
      ResidueOf(stamp - next, e - 3600, q);
    }
  }

  lemma OutOfPlaceAfter(st: TimeState, clock: Clock, trail: seq<nat>, stamp: nat)
    requires Remembers(st, clock, trail)
    ensures OutOfPlace(Valid(st, clock), stamp, Next(st, clock)) <==> !InPlaceAfter(trail, stamp)
  {
    hide PtsDelta;
    if trail != [] {
      DistanceAfter(trail[|trail| - 1], Next(st, clock), stamp);
    }
  }

  // ---------- The presentation and the decoding time ----------

  predicate SameBut(a: Raw, b: Raw, from: nat, to: nat)
  {
    forall i :: 0 <= i < PACKET_SIZE && !(from <= i < to) ==> a[i] == b[i]
  }

  predicate Same(a: Raw, b: Raw, from: nat, to: nat)
  {
    forall i :: from <= i < to && i < PACKET_SIZE ==> a[i] == b[i]
  }

  lemma SitesAgree(pkt: TsPacket, raw: Raw)
    requires Layout(pkt)
    ensures PtsSite(pkt, raw) == if OpensPes(pkt, raw) then Some(pkt.payloadOffset + 9) else None
    ensures OpensPes(pkt, raw) ==> (HasDts(raw, pkt.payloadOffset + 9) <==> CarriesDts(pkt, raw))
    ensures HasPcrSite(pkt, raw) <==> CarriesPcr(pkt, raw)
  {
  }

  /** What becomes of the decoding time at `at`, `pts` being the presentation time that goes out. */
  predicate DtsMended(before: Raw, after: Raw, at: nat, kept: bool, pts: nat)
    requires at + 5 <= PACKET_SIZE
  {
    if kept && Near(ReadPts33(before, at), pts) then Same(before, after, at, at + 5) else ReadPts33(after, at) == pts
  }

  lemma DtsEffect(raw: Raw, at: nat, out: nat, forced: bool)
    requires 9 <= at && at + 10 <= PACKET_SIZE && HasDts(raw, at)
    ensures var r := SmoothDts(raw, at, out, forced);
            SameBut(raw, r, at + 5, at + 10)
            && if !forced && Near(ReadPts33(raw, at + 5), out) then r == raw else ReadPts33(r, at + 5) == out % WRAP
  {
    PtsRoundTrip(raw, at + 5, out);
    PtsFrame(raw, at + 5, out);
    hide ReadPts33, WritePts33, PtsDelta;
  }

  lemma NoDtsEffect(raw: Raw, at: nat, out: nat, forced: bool)
    requires 9 <= at && at + 5 <= PACKET_SIZE && !HasDts(raw, at)
    ensures SmoothDts(raw, at, out, forced) == raw
  {
  }

  lemma ReadSame(a: Raw, b: Raw, at: nat)
    requires at + 5 <= PACKET_SIZE && Same(a, b, at, at + 5)
    ensures ReadPts33(a, at) == ReadPts33(b, at)
  {
    assert a[at] == b[at] && a[at + 1] == b[at + 1] && a[at + 2] == b[at + 2] && a[at + 3] == b[at + 3] && a[at + 4] == b[at + 4];
  }

  /** What becomes of both times of a packet, `kept` telling whether the presentation time is in place. */
  predicate TimesMended(pkt: TsPacket, before: Raw, after: Raw, kept: bool, next: nat)
    requires Layout(pkt) && OpensPes(pkt, before)
  {
    var at := pkt.payloadOffset + 9;
    && (if kept then Same(before, after, at, at + 5) else ReadPts33(after, at) == next % 0x2_0000_0000)
    && SameBut(before, after, at, if CarriesDts(pkt, before) then at + 10 else at + 5)
    && (CarriesDts(pkt, before) ==> DtsMended(before, after, at + 5, kept, ReadPts33(after, at)))
  }

  lemma PtsHalf(pkt: TsPacket, raw: Raw, st: TimeState)
    requires Layout(pkt) && OpensPes(pkt, raw)
    ensures var at := pkt.payloadOffset + 9;
            TimesMended(pkt, raw, SmoothPts(pkt, raw, st).1, !OutOfPlace(st.ptsValid, ReadPts33(raw, at), st.nextPts), st.nextPts)
  {
    SitesAgree(pkt, raw);
    var at := pkt.payloadOffset + 9;
    var stamp := ReadPts33(raw, at);
    var rewrite := OutOfPlace(st.ptsValid, stamp, st.nextPts);
    var out := if rewrite then st.nextPts else stamp;
    var stamped := if rewrite then WritePts33(raw, at, out) else raw;
    PtsRoundTrip(raw, at, st.nextPts);
    PtsFrame(raw, at, st.nextPts);
    hide ReadPts33, WritePts33, PtsDelta, OutOfPlace, SmoothDts, PtsSite;
    SameFlags(pkt, raw, stamped);
    PtsStamped(pkt, raw, st, stamped, out, rewrite);
    var r := SmoothDts(stamped, at, out, rewrite);
    if CarriesDts(pkt, raw) {
      DtsEffect(stamped, at, out, rewrite);
      ReadSame(stamped, r, at);
      if !rewrite {
        SmallStamp(stamp);
      }
    } else {
      NoDtsEffect(stamped, at, out, rewrite);
    }
  }

  lemma PtsStamped(pkt: TsPacket, raw: Raw, st: TimeState, stamped: Raw, out: nat, rewrite: bool)
    requires Layout(pkt) && OpensPes(pkt, raw) && PtsSite(pkt, raw) == Some(pkt.payloadOffset + 9)
    requires rewrite == OutOfPlace(st.ptsValid, ReadPts33(raw, pkt.payloadOffset + 9), st.nextPts)
    requires out == if rewrite then st.nextPts else ReadPts33(raw, pkt.payloadOffset + 9)
    requires stamped == if rewrite then WritePts33(raw, pkt.payloadOffset + 9, out) else raw
    ensures SmoothPts(pkt, raw, st).1 == SmoothDts(stamped, pkt.payloadOffset + 9, out, rewrite)
  {
    hide ReadPts33, WritePts33, PtsDelta, OutOfPlace, SmoothDts, PtsSite;
  }

  /** Bytes in front of the presentation time decide where a decoding time stands. */
  lemma SameFlags(pkt: TsPacket, raw: Raw, stamped: Raw)
    requires Layout(pkt) && OpensPes(pkt, raw) && SameBut(raw, stamped, pkt.payloadOffset + 9, pkt.payloadOffset + 14)
    ensures HasDts(stamped, pkt.payloadOffset + 9) <==> CarriesDts(pkt, raw)
  {
    assert stamped[pkt.payloadOffset + 7] == raw[pkt.payloadOffset + 7];
  }

  // ---------- The clock reference ----------

  lemma PcrHalf(pkt: TsPacket, raw: Raw, st: TimeState)
    requires Parse(raw) == Some(pkt)
    ensures var r := SmoothPcr(pkt, raw, st).1;
            && Parse(r).Some? && Parse(r).value == pkt.(pcrBase := Parse(r).value.pcrBase)
            && (if CarriesPcr(pkt, raw) && OutOfPlace(st.pcrValid, pkt.pcrBase, st.nextPcr)
                then SameBut(raw, r, 6, 12) && pkt.payloadOffset >= 12 && ReadPcrBase(r) == st.nextPcr % 0x2_0000_0000
                else r == raw)
  {
    PcrEffect(pkt, raw, st);
    SitesAgree(pkt, raw);
    PcrRoundTrip(raw, st.nextPcr);
    hide OutOfPlace, WritePcr, ReadPcrBase;
  }

  // ---------- The whole packet ----------

  /** What smoothing makes of a packet on a video PID, told from the stamps that went out before it: each stamp stays when
      it is in place and otherwise continues them, a decoding time stays when it is near an unchanged presentation time
      and otherwise equals it, and no other byte changes. */
  predicate Mended(pkt: TsPacket, before: Raw, after: Raw, pts: seq<nat>, pcr: seq<nat>)
    requires Layout(pkt)
  {
    var at := pkt.payloadOffset + 9;
    && (CarriesPcr(pkt, before) && !InPlaceAfter(pcr, pkt.pcrBase) ==>
          ReadPcrBase(after) == (pcr[|pcr| - 1] + 3600) % 0x2_0000_0000)
    && (OpensPes(pkt, before) ==>
          && (if InPlaceAfter(pts, ReadPts33(before, at)) then Same(before, after, at, at + 5)
              else ReadPts33(after, at) == (pts[|pts| - 1] + 3600) % 0x2_0000_0000)
          && (CarriesDts(pkt, before) ==>
                DtsMended(before, after, at + 5, InPlaceAfter(pts, ReadPts33(before, at)), ReadPts33(after, at))))
    && forall i :: 0 <= i < PACKET_SIZE && after[i] != before[i] ==>
         || (6 <= i < 12 && CarriesPcr(pkt, before) && !InPlaceAfter(pcr, pkt.pcrBase))
         || (at <= i < at + 5 && OpensPes(pkt, before))
         || (at + 5 <= i < at + 10 && CarriesDts(pkt, before))
  }

  lemma SitesBehindPcr(pkt: TsPacket, before: Raw, middle: Raw)
    requires Layout(pkt) && pkt.payloadOffset >= 12 && SameBut(before, middle, 6, 12)
    ensures OpensPes(pkt, before) == OpensPes(pkt, middle) && CarriesDts(pkt, before) == CarriesDts(pkt, middle)
    ensures OpensPes(pkt, before) ==> ReadPts33(before, pkt.payloadOffset + 9) == ReadPts33(middle, pkt.payloadOffset + 9)
    ensures CarriesDts(pkt, before) ==> ReadPts33(before, pkt.payloadOffset + 14) == ReadPts33(middle, pkt.payloadOffset + 14)
  {
    hide ReadPts33;
    if OpensPes(pkt, before) {
      ReadSame(before, middle, pkt.payloadOffset + 9);
    }
    if CarriesDts(pkt, before) {
      ReadSame(before, middle, pkt.payloadOffset + 14);
    }
  }

  /** Both halves, one after the other. */
  lemma HalvesMend(pkt: TsPacket, before: Raw, middle: Raw, after: Raw, pts: seq<nat>, pcr: seq<nat>, nextPcr: nat, nextPts: nat)
    requires Layout(pkt)
    requires pcr != [] ==> nextPcr % WRAP == (pcr[|pcr| - 1] + 3600) % WRAP
    requires pts != [] ==> nextPts % WRAP == (pts[|pts| - 1] + 3600) % WRAP
    requires if CarriesPcr(pkt, before) && !InPlaceAfter(pcr, pkt.pcrBase)
             then SameBut(before, middle, 6, 12) && pkt.payloadOffset >= 12 && ReadPcrBase(middle) == nextPcr % 0x2_0000_0000
             else middle == before
    requires if OpensPes(pkt, middle)
             then TimesMended(pkt, middle, after, InPlaceAfter(pts, ReadPts33(middle, pkt.payloadOffset + 9)), nextPts)
             else after == middle
    ensures Mended(pkt, before, after, pts, pcr)
  {
    var at := pkt.payloadOffset + 9;
    if middle != before {
      SitesBehindPcr(pkt, before, middle);
    }
    hide ReadPts33, PtsDelta, OpensPes, CarriesPcr, InPlaceAfter;
    assert OpensPes(pkt, middle) ==> SameBut(middle, after, at, if CarriesDts(pkt, middle) then at + 10 else at + 5);
    PcrBytesKept(middle, after, pkt);
  }

  lemma PcrBytesKept(middle: Raw, after: Raw, pkt: TsPacket)
    requires Layout(pkt) && pkt.payloadOffset >= 12 ==> SameBut(middle, after, pkt.payloadOffset + 9, PACKET_SIZE) || middle == after
    ensures Layout(pkt) && pkt.payloadOffset >= 12 ==> ReadPcrBase(after) == ReadPcrBase(middle)
  {
  }

  /** What smoothing makes of one packet, of another PID or undecodable ones included. */
  lemma ItemMended(st: TimeState, item: Item, pts: seq<nat>, pcr: seq<nat>)
    requires Remembers(st, Pts, pts) && Remembers(st, Pcr, pcr)
    ensures var r := SmoothItem(st, item).1;
            && r.video == item.video
            && (Parse(item.raw).None? || !Listed(Parse(item.raw).value.pid, item.video) ==> r == item)
            && (Parse(item.raw).Some? && Listed(Parse(item.raw).value.pid, item.video) ==>
                  Mended(Parse(item.raw).value, item.raw, r.raw, pts, pcr))
  {
    if Parse(item.raw).Some? && Listed(Parse(item.raw).value.pid, item.video) {
      var pkt := Parse(item.raw).value;
      VideoMended(st, item.raw, pkt, pts, pcr);
      hide Parse, Mended, SmoothPcr, SmoothPts;
    }
  }

  lemma VideoMended(st: TimeState, raw: Raw, pkt: TsPacket, pts: seq<nat>, pcr: seq<nat>)
    requires Parse(raw) == Some(pkt) && Remembers(st, Pts, pts) && Remembers(st, Pcr, pcr)
    ensures var (st1, raw1, _) := SmoothPcr(pkt, raw, st);
            Mended(pkt, raw, SmoothPts(pkt, raw1, st1).1, pts, pcr)
  {
    var (st1, raw1, pcrRewritten) := SmoothPcr(pkt, raw, st);
    PcrHalf(pkt, raw, st);
    OutOfPlaceAfter(st, Pcr, pcr, pkt.pcrBase);
    SameTimes(pkt, raw, st);
    PtsOrNot(pkt, raw1, st1, pts);
    hide Parse, SmoothPcr, SmoothPts, TimesMended, OpensPes, Mended, InPlaceAfter, ReadPts33, SameBut, CarriesPcr;
    HalvesMend(pkt, raw, raw1, SmoothPts(pkt, raw1, st1).1, pts, pcr, st.nextPcr, st.nextPts);
  }

  lemma SameTimes(pkt: TsPacket, raw: Raw, st: TimeState)
    ensures var st1 := SmoothPcr(pkt, raw, st).0; st1.ptsValid == st.ptsValid && st1.nextPts == st.nextPts
  {
    hide OutOfPlace, WritePcr;
  }

  lemma PtsOrNot(pkt: TsPacket, raw: Raw, st: TimeState, pts: seq<nat>)
    requires Layout(pkt) && Remembers(st, Pts, pts)
    ensures var r := SmoothPts(pkt, raw, st).1;
            if OpensPes(pkt, raw) then TimesMended(pkt, raw, r, InPlaceAfter(pts, ReadPts33(raw, pkt.payloadOffset + 9)), st.nextPts)
            else r == raw
  {
    SitesAgree(pkt, raw);
    if OpensPes(pkt, raw) {
      PtsHalf(pkt, raw, st);
      OutOfPlaceAfter(st, Pts, pts, ReadPts33(raw, pkt.payloadOffset + 9));
      hide TimesMended, OpensPes, InPlaceAfter, ReadPts33, OutOfPlace, SmoothPts;
    }
  }

  /** Along a whole stream: what becomes of the next packet depends on the stamps that went out and on nothing else. */
  lemma RunMends(items: seq<Item>, item: Item)
    ensures var (st, out) := SmoothRun(FreshTime(), items);
            var r := SmoothItem(st, item).1;
            if Parse(item.raw).Some? && Listed(Parse(item.raw).value.pid, item.video)
            then Mended(Parse(item.raw).value, item.raw, r.raw, Trail(out, Pts), Trail(out, Pcr)) && r.video == item.video
            else r == item
  {
    hide Parse, SmoothItem, SmoothRun, Trail, Mended, Remembers;
    OutputPaced(items, Pts);
    OutputPaced(items, Pcr);
    var (st, out) := SmoothRun(FreshTime(), items);
    ItemMended(st, item, Trail(out, Pts), Trail(out, Pcr));
  }

  /** Every stamp of the packet is in place, and its decoding time near. */
  predicate AllInPlace(pkt: TsPacket, raw: Raw, pts: seq<nat>, pcr: seq<nat>)
    requires Layout(pkt)
  {
    var at := pkt.payloadOffset + 9;
    && (CarriesPcr(pkt, raw) ==> InPlaceAfter(pcr, pkt.pcrBase))
    && (OpensPes(pkt, raw) ==> InPlaceAfter(pts, ReadPts33(raw, at)))
    && (CarriesDts(pkt, raw) ==> Near(ReadPts33(raw, at + 5), ReadPts33(raw, at)))
  }

  /** Such a packet goes out byte for byte. */
  lemma InPlaceUntouched(pkt: TsPacket, before: Raw, after: Raw, pts: seq<nat>, pcr: seq<nat>)
    requires Layout(pkt) && Mended(pkt, before, after, pts, pcr) && AllInPlace(pkt, before, pts, pcr)
    ensures after == before
  {
    hide InPlaceAfter, ReadPts33, PtsDelta, CarriesPcr;
    if OpensPes(pkt, before) {
      ReadSame(before, after, pkt.payloadOffset + 9);
    }
    hide OpensPes;
    forall i | 0 <= i < PACKET_SIZE ensures after[i] == before[i] {
    }
  }
}
