// Timestamp smoothing (src/scatterfix.c:161-276): PTS, DTS and PCR fields of ISO/IEC 13818-1
// sections 2.4.3.5 to 2.4.3.7, all 33 bits wide and read modulo 2^33.
module Timestamps {
  import opened Bytes
  import opened TsPackets
  import opened PsiTables
  import opened Statistics

  const WRAP := 0x2_0000_0000
  const FRAME_TICKS := 3600
  const PCR_TICKS := 3600
  const MAX_JUMP := 90000

  function ReadPts33(s: seq<byte>, at: nat): (v: nat)
    requires at + 5 <= |s|
    ensures v < WRAP
  {
    N(s[at]) / 2 % 8 * 0x4000_0000 + N(s[at + 1]) * 0x40_0000 + N(s[at + 2]) / 2 * 0x8000
    + N(s[at + 3]) * 0x80 + N(s[at + 4]) / 2
  }

  /** The five bytes `write_pts33` leaves for `value`, given the byte it finds in front. */
  function Pts33Bytes(first: byte, value: nat): (r: seq<byte>)
    ensures |r| == 5
  {
    var v := value % WRAP;
    [(N(first) / 16 * 16 + v / 0x4000_0000 % 8 * 2 + 1) as byte,
     v / 0x40_0000 % 256,
     (v / 0x8000 % 128 * 2 + 1) as byte,
     v / 0x80 % 256,
     (v % 128 * 2 + 1) as byte]
  }

  function WritePts33(raw: Raw, at: nat, value: nat): Raw
    requires at + 5 <= PACKET_SIZE
  {
    Splice(raw, at, Pts33Bytes(raw[at], value))
  }

  /** `write_pcr_base`: the extension becomes zero. */
  function PcrBytes(value: nat): (r: seq<byte>)
    ensures |r| == 6
  {
    var v := value % WRAP;
    [(v / 0x200_0000) as byte, v / 0x2_0000 % 256, v / 0x200 % 256, v / 2 % 256, (v % 2 * 128 + 0x7e) as byte, 0]
  }

  function WritePcr(raw: Raw, value: nat): Raw
  {
    Splice(raw, 6, PcrBytes(value))
  }

  /** The signed distance from `older` to `newer`, in (-2^32, 2^32]. */
  function PtsDelta(newer: nat, older: nat): (d: int)
    ensures -0x1_0000_0000 < d <= 0x1_0000_0000
    ensures (newer - older - d) % WRAP == 0
  {
    var d := (newer - older) % WRAP;
    if d > 0x1_0000_0000 then d - WRAP else d
  }

  // ---------- The smoother ----------

  datatype TimeState = TimeState(ptsValid: bool, pcrValid: bool, nextPts: nat, nextPcr: nat)

  function FreshTime(): TimeState
  {
    TimeState(false, false, 0, 0)
  }

  /** A stamp that steps back or jumps too far from the expected one is out of place. */
  predicate OutOfPlace(valid: bool, stamp: nat, expected: nat)
  {
    valid && !(0 <= PtsDelta(stamp, expected) <= MAX_JUMP)
  }

  predicate HasPcrSite(pkt: TsPacket, raw: Raw)
  {
    pkt.hasPcr && N(raw[3]) / 16 != 1 && N(raw[4]) >= 7
  }

  /** Where the five PTS bytes of a PES header start, when this packet opens a PES that has them. */
  function PtsSite(pkt: TsPacket, raw: Raw): (r: Option<nat>)
    requires Layout(pkt)
    ensures r.Some? ==> pkt.payloadOffset + 9 == r.value && r.value + 5 <= PACKET_SIZE
  {
    if !pkt.payloadUnitStart || !pkt.hasPayload || pkt.payloadSize < 14 then None else
    var off := pkt.payloadOffset;
    if raw[off] != 0 || raw[off + 1] != 0 || raw[off + 2] != 1 then None else
    if !Bit(raw[off + 7], 128) || off + 9 + N(raw[off + 8]) > PACKET_SIZE then None
    else Some(off + 9)
  }

  /** Where the DTS bytes follow a PTS at `at`. */
  predicate HasDts(raw: Raw, at: nat)
    requires 9 <= at < PACKET_SIZE
  {
    Bit(raw[at - 2], 64) && at + 10 <= PACKET_SIZE
  }

  function SmoothPcr(pkt: TsPacket, raw: Raw, st: TimeState): (r: (TimeState, Raw, bool))
  {
    if !HasPcrSite(pkt, raw) then (st, raw, false) else
    var rewrite := OutOfPlace(st.pcrValid, pkt.pcrBase, st.nextPcr);
    var out := if rewrite then st.nextPcr else pkt.pcrBase;
    (st.(pcrValid := true, nextPcr := (out + PCR_TICKS) % U64), if rewrite then WritePcr(raw, out) else raw, rewrite)
  }

  function SmoothDts(raw: Raw, at: nat, pts: nat, forced: bool): Raw
    requires 9 <= at && at + 5 <= PACKET_SIZE
  {
    if HasDts(raw, at) && (forced || !(-MAX_JUMP <= PtsDelta(ReadPts33(raw, at + 5), pts) <= MAX_JUMP))
    then WritePts33(raw, at + 5, pts)
    else raw
  }

  function SmoothPts(pkt: TsPacket, raw: Raw, st: TimeState): (r: (TimeState, Raw, bool))
    requires Layout(pkt)
  {
    match PtsSite(pkt, raw)
    case None => (st, raw, false)
    case Some(at) =>
      var stamp := ReadPts33(raw, at);
      var rewrite := OutOfPlace(st.ptsValid, stamp, st.nextPts);
      var out := if rewrite then st.nextPts else stamp;
      var stamped := if rewrite then WritePts33(raw, at, out) else raw;
      (st.(ptsValid := true, nextPts := (out + FRAME_TICKS) % U64), SmoothDts(stamped, at, out, rewrite), rewrite)
  }

  datatype Smoothed = Smoothed(time: TimeState, raw: Raw, pcrRewritten: bool, ptsRewritten: bool)

  /** `clean_ts_smooth_timestamps`. */
  function Smooth(video: seq<Stream>, pkt: TsPacket, raw: Raw, st: TimeState): Smoothed
    requires Layout(pkt)
  {
    if !Listed(pkt.pid, video) then Smoothed(st, raw, false, false) else
    var (st1, raw1, pcr) := SmoothPcr(pkt, raw, st);
    var (st2, raw2, pts) := SmoothPts(pkt, raw1, st1);
    Smoothed(st2, raw2, pcr, pts)
  }

  // ---------- 33-bit fields ----------

  lemma PtsDigits(v: nat)
    ensures v == v / 0x4000_0000 * 0x4000_0000 + v / 0x40_0000 % 256 * 0x40_0000 + v / 0x8000 % 128 * 0x8000
                 + v / 0x80 % 256 * 0x80 + v % 128
  {
    var a := v / 128;
    var b := a / 256;
    var c := b / 128;
    var d := c / 256;
    DivDiv128(v);
    assert v == a * 128 + v % 128;
    assert a == b * 256 + a % 256;
    assert b == c * 128 + b % 128;
    assert c == d * 256 + c % 256;
  }

  lemma DivDiv128(v: nat)
    ensures v / 128 / 256 == v / 0x8000
    ensures v / 0x8000 / 128 == v / 0x40_0000
    ensures v / 0x40_0000 / 256 == v / 0x4000_0000
  {
  }

  lemma PcrDigits(v: nat)
    ensures v == v / 0x200_0000 * 0x200_0000 + v / 0x2_0000 % 256 * 0x2_0000 + v / 0x200 % 256 * 0x200
                 + v / 2 % 256 * 2 + v % 2
  {
    var a := v / 2;
    var b := a / 256;
    var c := b / 256;
    var d := c / 256;
    assert b == v / 0x200;
    assert c == v / 0x2_0000;
    assert d == v / 0x200_0000;
    assert v == a * 2 + v % 2;
    assert a == b * 256 + a % 256;
    assert b == c * 256 + b % 256;
    assert c == d * 256 + c % 256;
  }

  /** The number five written bytes spell. */
  lemma PtsBytesRead(first: byte, value: nat)
    ensures var b := Pts33Bytes(first, value);
            N(b[0]) / 2 % 8 * 0x4000_0000 + N(b[1]) * 0x40_0000 + N(b[2]) / 2 * 0x8000 + N(b[3]) * 0x80 + N(b[4]) / 2 == value % WRAP
  {
    var v := value % WRAP;
    PtsDigits(v);
    var b := Pts33Bytes(first, value);
    TopBits(first, v);
    assert N(b[2]) / 2 == v / 0x8000 % 128;
    assert N(b[4]) / 2 == v % 128;
  }

  lemma TopBits(first: byte, v: nat)
    requires v < WRAP
    ensures (N(first) / 16 * 16 + v / 0x4000_0000 % 8 * 2 + 1) / 2 % 8 == v / 0x4000_0000
  {
    assert v / 0x4000_0000 < 8;
  }

  lemma ReadSpliced(raw: Raw, at: nat, b: seq<byte>)
    requires at + 5 <= PACKET_SIZE && |b| == 5
    ensures ReadPts33(Splice(raw, at, b), at) ==
            N(b[0]) / 2 % 8 * 0x4000_0000 + N(b[1]) * 0x40_0000 + N(b[2]) / 2 * 0x8000 + N(b[3]) * 0x80 + N(b[4]) / 2
  {
    var r := Splice(raw, at, b);
    assert r[at] == b[0] && r[at + 1] == b[1] && r[at + 2] == b[2] && r[at + 3] == b[3] && r[at + 4] == b[4];
  }

  lemma PtsRoundTrip(raw: Raw, at: nat, value: nat)
    requires at + 5 <= PACKET_SIZE
    ensures ReadPts33(WritePts33(raw, at, value), at) == value % WRAP
  {
    PtsBytesRead(raw[at], value);
    hide Pts33Bytes, ReadPts33, Splice;
    ReadSpliced(raw, at, Pts33Bytes(raw[at], value));
  }

  /** Writing a stamp sets its three marker bits, keeps the four bits in front and leaves all other bytes alone. */
  lemma PtsFrame(raw: Raw, at: nat, value: nat)
    requires at + 5 <= PACKET_SIZE
    ensures var r := WritePts33(raw, at, value);
            && r[at] / 16 == raw[at] / 16 && r[at] % 2 == 1 && r[at + 2] % 2 == 1 && r[at + 4] % 2 == 1
            && forall i :: 0 <= i < PACKET_SIZE && !(at <= i < at + 5) ==> r[i] == raw[i]
  {
    var r, b := WritePts33(raw, at, value), Pts33Bytes(raw[at], value);
    assert r[at] == b[0] && r[at + 2] == b[2] && r[at + 4] == b[4];
    assert b[0] == N(raw[at]) / 16 * 16 + value % WRAP / 0x4000_0000 % 8 * 2 + 1;
  }

  lemma PcrRoundTrip(raw: Raw, value: nat)
    ensures ReadPcrBase(WritePcr(raw, value)) == value % WRAP
    ensures forall i :: 0 <= i < PACKET_SIZE && !(6 <= i < 12) ==> WritePcr(raw, value)[i] == raw[i]
  {
    var v := value % WRAP;
    PcrDigits(v);
    assert N(PcrBytes(value)[4]) / 128 == v % 2;
  }

  // ---------- One packet ----------

  /** The clock reference a smoother would act on, read from the packet alone. */
  function PcrOf(raw: Raw): Option<nat>
  {
    if Parse(raw).Some? && HasPcrSite(Parse(raw).value, raw) then Some(Parse(raw).value.pcrBase) else None
  }

  /** The presentation time a smoother would act on. */
  function PtsOf(raw: Raw): Option<nat>
  {
    if Parse(raw).Some? && PtsSite(Parse(raw).value, raw).Some?
    then Some(ReadPts33(raw, PtsSite(Parse(raw).value, raw).value))
    else None
  }

  lemma PcrEffect(pkt: TsPacket, raw: Raw, st: TimeState)
    requires Parse(raw) == Some(pkt)
    ensures var r := SmoothPcr(pkt, raw, st);
            && Parse(r.1).Some? && Parse(r.1).value == pkt.(pcrBase := Parse(r.1).value.pcrBase)
            && r.1[..6] == raw[..6] && r.1[12..] == raw[12..]
            && (r.2 ==> PcrOf(r.1) == Some(st.nextPcr % WRAP))
            && (!r.2 ==> r.1 == raw)
  {
    var r := SmoothPcr(pkt, raw, st);
    if r.2 {
      PcrRoundTrip(raw, st.nextPcr);
      assert r.1[..6] == raw[..6];
      ParseFromHeader(raw, r.1);
    }
  }

  /** A packet edited at or behind its PTS field still decodes, and keeps the field, at the same place. */
  lemma SiteFromBytes(pkt: TsPacket, a: Raw, b: Raw)
    requires Layout(pkt)
    requires pkt.payloadSize >= 14 ==> a[pkt.payloadOffset..pkt.payloadOffset + 9] == b[pkt.payloadOffset..pkt.payloadOffset + 9]
    ensures PtsSite(pkt, a) == PtsSite(pkt, b)
  {
    var off := pkt.payloadOffset;
    if pkt.payloadSize >= 14 {
      var x, y := a[off..off + 9], b[off..off + 9];
      assert x[0] == y[0] && x[1] == y[1] && x[2] == y[2] && x[7] == y[7] && x[8] == y[8];
    }
  }

  lemma TailEdit(pkt: TsPacket, a: Raw, b: Raw, at: nat)
    requires Parse(a) == Some(pkt) && pkt.payloadOffset + 9 == at <= PACKET_SIZE && a[..at] == b[..at]
    ensures Parse(b) == Some(pkt) && PtsSite(pkt, b) == PtsSite(pkt, a)
  {
    assert a[..6] == a[..at][..6] && b[..6] == b[..at][..6];
    assert a[6..11] == a[..at][6..11] && b[6..11] == b[..at][6..11];
    ParseFromHeader(a, b);
    SameBytes(a, b, at);
  }

  lemma SameBytes(a: Raw, b: Raw, at: nat)
    requires at <= PACKET_SIZE && a[..at] == b[..at]
    ensures forall i :: 0 <= i < at ==> a[i] == b[i]
  {
    assert forall i :: 0 <= i < at ==> a[i] == a[..at][i] == b[..at][i] == b[i];
  }

  lemma DtsEffect(raw: Raw, at: nat, pts: nat, forced: bool)
    requires 9 <= at && at + 5 <= PACKET_SIZE
    ensures SmoothDts(raw, at, pts, forced)[..at + 5] == raw[..at + 5]
  {
  }

  lemma ReadPtsFrom(a: Raw, b: Raw, at: nat)
    requires at + 5 <= PACKET_SIZE && a[at..at + 5] == b[at..at + 5]
    ensures ReadPts33(a, at) == ReadPts33(b, at)
  {
    var x, y := a[at..at + 5], b[at..at + 5];
    assert x[0] == y[0] && x[1] == y[1] && x[2] == y[2] && x[3] == y[3] && x[4] == y[4];
  }

  lemma SamePrefix(a: Raw, b: Raw, at: nat)
    requires at + 5 <= PACKET_SIZE && a[..at + 5] == b[..at + 5]
    ensures a[..at] == b[..at] && a[at..at + 5] == b[at..at + 5]
  {
    assert a[..at] == a[..at + 5][..at] && b[..at] == b[..at + 5][..at];
    assert a[at..at + 5] == a[..at + 5][at..] && b[at..at + 5] == b[..at + 5][at..];
  }

  lemma FrontKept(raw: Raw, at: nat, value: nat)
    requires at + 5 <= PACKET_SIZE
    ensures WritePts33(raw, at, value)[..at] == raw[..at]
  {
    hide Pts33Bytes;
  }

  /** The smoother touches nothing in front of the PTS, and the PTS only to write the expected one. */
  lemma PtsEdit(pkt: TsPacket, raw: Raw, st: TimeState)
    requires Layout(pkt) && PtsSite(pkt, raw).Some?
    ensures var r, at := SmoothPts(pkt, raw, st), pkt.payloadOffset + 9;
            && r.1[..at] == raw[..at]
            && ReadPts33(r.1, at) == if r.2 then st.nextPts % WRAP else ReadPts33(raw, at)
  {
    var r := SmoothPts(pkt, raw, st);
    var at := pkt.payloadOffset + 9;
    var stamped := if r.2 then WritePts33(raw, at, st.nextPts) else raw;
    var out := if r.2 then st.nextPts else ReadPts33(raw, at);
    DtsEffect(stamped, at, out, r.2);
    hide ReadPts33, SmoothDts;
    SamePrefix(r.1, stamped, at);
    ReadPtsFrom(r.1, stamped, at);
    if r.2 {
      PtsRoundTrip(raw, at, st.nextPts);
      FrontKept(raw, at, st.nextPts);
    }
  }

  lemma Shorter(a: Raw, b: Raw, at: nat, n: nat)
    requires n <= at <= PACKET_SIZE && a[..at] == b[..at]
    ensures a[..n] == b[..n]
  {
    assert a[..n] == a[..at][..n] && b[..n] == b[..at][..n];
  }

  lemma PtsEffect(pkt: TsPacket, raw: Raw, st: TimeState)
    requires Parse(raw) == Some(pkt)
    ensures var r := SmoothPts(pkt, raw, st);
            && Parse(r.1) == Some(pkt)
            && PtsSite(pkt, r.1) == PtsSite(pkt, raw)
            && r.1[..13] == raw[..13]
            && (PtsSite(pkt, raw).None? ==> r == (st, raw, false))
            && (r.2 ==> PtsOf(r.1) == Some(st.nextPts % WRAP))
            && (!r.2 ==> PtsOf(r.1) == PtsOf(raw))
  {
    hide Parse, ReadPts33, SmoothDts;
    if PtsSite(pkt, raw).Some? {
      var r := SmoothPts(pkt, raw, st);
      var at := pkt.payloadOffset + 9;
      PtsEdit(pkt, raw, st);
      TailEdit(pkt, raw, r.1, at);
      Shorter(r.1, raw, at, 13);
    }
  }

  // ---------- Runs ----------

  /** A packet together with the video streams listed when it was written. */
  datatype Item = Item(video: seq<Stream>, raw: Raw)

  datatype Clock = Pts | Pcr

  function SmoothItem(st: TimeState, item: Item): (TimeState, Item)
  {
    match Parse(item.raw)
    case None => (st, item)
    case Some(pkt) =>
      var s := Smooth(item.video, pkt, item.raw, st);
      (s.time, item.(raw := s.raw))
  }

  function SmoothRun(st: TimeState, items: seq<Item>): (r: (TimeState, seq<Item>))
    ensures |r.1| == |items|
  {
    if items == [] then (st, []) else
    var (st1, out) := SmoothRun(st, items[..|items| - 1]);
    var (st2, last) := SmoothItem(st1, items[|items| - 1]);
    (st2, out + [last])
  }

  /** The stamp of a video packet, if it has one. */
  function Stamp(item: Item, clock: Clock): Option<nat>
  {
    if Parse(item.raw).None? || !Listed(Parse(item.raw).value.pid, item.video) then None
    else if clock == Pts then PtsOf(item.raw) else PcrOf(item.raw)
  }

  /** All stamps of a stream, in order. */
  function Trail(items: seq<Item>, clock: Clock): seq<nat>
  {
    if items == [] then [] else
    var stamp := Stamp(items[|items| - 1], clock);
    Trail(items[..|items| - 1], clock) + if stamp.Some? then [stamp.value] else []
  }

  predicate Advances(earlier: nat, later: nat)
  {
    FRAME_TICKS <= (later - earlier) % WRAP <= FRAME_TICKS + MAX_JUMP
  }

  /** Every stamp is 3600 to 93600 ticks after the one before, modulo 2^33. */
  predicate Paced(trail: seq<nat>)
  {
    forall i :: 0 < i < |trail| ==> Advances(trail[i - 1], trail[i])
  }

  predicate Valid(st: TimeState, clock: Clock)
  {
    if clock == Pts then st.ptsValid else st.pcrValid
  }

  function Next(st: TimeState, clock: Clock): nat
  {
    if clock == Pts then st.nextPts else st.nextPcr
  }

  /** The smoother remembers exactly the last stamp it let through. */
  predicate Remembers(st: TimeState, clock: Clock, trail: seq<nat>)
  {
    && (Valid(st, clock) <==> trail != [])
    && (Valid(st, clock) ==> Next(st, clock) % WRAP == (trail[|trail| - 1] + FRAME_TICKS) % WRAP)
  }

  lemma DeltaIsModular(newer: nat, older: nat, newer': nat, older': nat)
    requires newer % WRAP == newer' % WRAP && older % WRAP == older' % WRAP
    ensures PtsDelta(newer, older) == PtsDelta(newer', older')
  {
    DifferenceWraps(newer, older);
    DifferenceWraps(newer', older');
  }

  lemma DifferenceWraps(a: nat, b: nat)
    ensures (a - b) % WRAP == (a % WRAP - b % WRAP) % WRAP
  {
    WholeTurns(a % WRAP - b % WRAP, a / WRAP - b / WRAP);
    assert a - b == a % WRAP - b % WRAP + (a / WRAP - b / WRAP) * WRAP;
  }

  lemma Wraps(x: nat, k: nat)
    ensures x % U64 % WRAP == x % WRAP
    ensures x % WRAP % WRAP == x % WRAP
    ensures (x % WRAP + k) % WRAP == (x + k) % WRAP
  {
    WholeTurns(x % U64, x / U64 * 0x8000_0000);
    assert x == x % U64 + x / U64 * 0x8000_0000 * WRAP by { LongTurns(x); }
    WholeTurns(x % WRAP + k, x / WRAP);
  }

  lemma LongTurns(x: nat)
    ensures x == x % U64 + x / U64 * 0x8000_0000 * WRAP
  {
  }

  /** Whole turns of the clock do not show. */
  lemma WholeTurns(x: int, turns: int)
    ensures (x + turns * WRAP) % WRAP == x % WRAP
  {
  }

  lemma NoDelta(x: nat)
    ensures PtsDelta(x, x) == 0
  {
  }

  /** The stamp that goes out: in place with respect to the expected one, and remembered. */
  lemma Steered(valid: bool, next: nat, stamp: nat)
    requires stamp < WRAP
    ensures var out := if OutOfPlace(valid, stamp, next) then next else stamp;
            && (out + FRAME_TICKS) % U64 % WRAP == (out % WRAP + FRAME_TICKS) % WRAP
            && (valid ==> 0 <= PtsDelta(out % WRAP, next) <= MAX_JUMP)
            && (!OutOfPlace(valid, stamp, next) ==> out % WRAP == stamp)
  {
    var out := if OutOfPlace(valid, stamp, next) then next else stamp;
    Wraps(out + FRAME_TICKS, 0);
    Wraps(out, FRAME_TICKS);
    DeltaIsModular(out % WRAP, next, out, next);
    NoDelta(next);
  }

  /** The effect of one smoothing step on a clock: `before` and `after` are what the packet shows. */
  predicate ClockStep(valid: bool, next: nat, valid': bool, next': nat, before: Option<nat>, after: Option<nat>)
  {
    && (after.None? <==> before.None?)
    && (after.None? ==> valid' == valid && next' == next)
    && (after.Some? ==>
          && valid'
          && next' % WRAP == (after.value + FRAME_TICKS) % WRAP
          && (valid ==> 0 <= PtsDelta(after.value, next) <= MAX_JUMP))
  }

  /** Steering a stamp is a clock step. */
  lemma SteeredStep(valid: bool, next: nat, stamp: nat)
    requires stamp < WRAP
    ensures var out := if OutOfPlace(valid, stamp, next) then next else stamp;
            ClockStep(valid, next, true, (out + FRAME_TICKS) % U64, Some(stamp), Some(out % WRAP))
  {
    hide OutOfPlace, PtsDelta;
    Steered(valid, next, stamp);
  }

  lemma NoStep(valid: bool, next: nat)
    ensures ClockStep(valid, next, valid, next, None, None)
  {
  }

  lemma PcrClock(pkt: TsPacket, raw: Raw, st: TimeState)
    requires Parse(raw) == Some(pkt)
    ensures var r := SmoothPcr(pkt, raw, st);
            && ClockStep(st.pcrValid, st.nextPcr, r.0.pcrValid, r.0.nextPcr, PcrOf(raw), PcrOf(r.1))
            && r.0.ptsValid == st.ptsValid && r.0.nextPts == st.nextPts
  {
    PcrEffect(pkt, raw, st);
    NoStep(st.pcrValid, st.nextPcr);
    if HasPcrSite(pkt, raw) {
      SteeredStep(st.pcrValid, st.nextPcr, pkt.pcrBase);
      SmallStamp(pkt.pcrBase);
    }
    hide Parse, ClockStep, OutOfPlace, WritePcr;
  }

  lemma SmallStamp(stamp: nat)
    ensures stamp < WRAP ==> stamp % WRAP == stamp
  {
  }

  lemma PtsClock(pkt: TsPacket, raw: Raw, st: TimeState)
    requires Parse(raw) == Some(pkt)
    ensures var r := SmoothPts(pkt, raw, st);
            && ClockStep(st.ptsValid, st.nextPts, r.0.ptsValid, r.0.nextPts, PtsOf(raw), PtsOf(r.1))
            && r.0.pcrValid == st.pcrValid && r.0.nextPcr == st.nextPcr
  {
    PtsEffect(pkt, raw, st);
    NoStep(st.ptsValid, st.nextPts);
    if PtsSite(pkt, raw).Some? {
      var stamp := ReadPts33(raw, PtsSite(pkt, raw).value);
      SteeredStep(st.ptsValid, st.nextPts, stamp);
      SmallStamp(stamp);
    }
    hide Parse, ClockStep, OutOfPlace, ReadPts33, SmoothDts, WritePts33, PtsSite;
  }

  lemma SameSlice(a: Raw, b: Raw, from: nat, lo: nat, hi: nat)
    requires from <= lo <= hi <= PACKET_SIZE && a[from..] == b[from..]
    ensures a[lo..hi] == b[lo..hi]
  {
    var x, y := a[from..], b[from..];
    forall k | 0 <= k < hi - lo ensures a[lo..hi][k] == b[lo..hi][k] {
      assert a[lo + k] == x[lo + k - from] && b[lo + k] == y[lo + k - from];
    }
  }

  lemma SameStamp(pkt: TsPacket, a: Raw, b: Raw)
    requires Layout(pkt) && pkt.payloadOffset >= 12 && a[12..] == b[12..]
    ensures PtsSite(pkt, a) == PtsSite(pkt, b)
    ensures pkt.payloadSize >= 14 ==> ReadPts33(a, pkt.payloadOffset + 9) == ReadPts33(b, pkt.payloadOffset + 9)
  {
    hide PtsSite, ReadPts33;
    var off := pkt.payloadOffset;
    if pkt.payloadSize >= 14 {
      SameSlice(a, b, 12, off, off + 9);
      SameSlice(a, b, 12, off + 9, off + 14);
      ReadPtsFrom(a, b, off + 9);
    }
    SiteFromBytes(pkt, a, b);
  }

  lemma SiteIgnoresPcr(pkt: TsPacket, base: nat, raw: Raw)
    requires Layout(pkt)
    ensures PtsSite(pkt.(pcrBase := base), raw) == PtsSite(pkt, raw)
  {
  }

  /** Writing the clock reference leaves the presentation time alone. */
  lemma PcrKeepsPts(pkt: TsPacket, raw: Raw, st: TimeState)
    requires Parse(raw) == Some(pkt)
    ensures PtsOf(SmoothPcr(pkt, raw, st).1) == PtsOf(raw)
  {
    PcrEffect(pkt, raw, st);
    var (st1, raw1, rewrite) := SmoothPcr(pkt, raw, st);
    if rewrite {
      assert pkt.payloadOffset >= 12;
      hide Parse, ReadPts33;
      SameStamp(pkt, raw1, raw);
      SiteIgnoresPcr(pkt, Parse(raw1).value.pcrBase, raw1);
    }
  }

  /** Writing the presentation time leaves the clock reference alone. */
  lemma PtsKeepsPcr(pkt: TsPacket, raw: Raw, st: TimeState)
    requires Parse(raw) == Some(pkt)
    ensures PcrOf(SmoothPts(pkt, raw, st).1) == PcrOf(raw)
  {
    PtsEffect(pkt, raw, st);
    SameBytes(SmoothPts(pkt, raw, st).1, raw, 13);
  }

  lemma PtsIgnoresPcr(pkt: TsPacket, base: nat, raw: Raw, st: TimeState)
    requires Layout(pkt)
    ensures SmoothPts(pkt.(pcrBase := base), raw, st) == SmoothPts(pkt, raw, st)
  {
    assert PtsSite(pkt.(pcrBase := base), raw) == PtsSite(pkt, raw);
  }

  /** The two halves of the smoother do not disturb one another. */
  lemma SmoothHalves(pkt: TsPacket, raw: Raw, st: TimeState)
    requires Parse(raw) == Some(pkt)
    ensures var (st1, raw1, pcr) := SmoothPcr(pkt, raw, st);
            var (st2, raw2, pts) := SmoothPts(pkt, raw1, st1);
            && Parse(raw1).Some?
            && Parse(raw1).value == pkt.(pcrBase := Parse(raw1).value.pcrBase)
            && Parse(raw2) == Parse(raw1)
            && SmoothPts(Parse(raw1).value, raw1, st1) == (st2, raw2, pts)
            && PtsOf(raw1) == PtsOf(raw)
            && PcrOf(raw2) == PcrOf(raw1)
  {
    PcrEffect(pkt, raw, st);
    var (st1, raw1, pcr) := SmoothPcr(pkt, raw, st);
    var pkt1 := Parse(raw1).value;
    PtsIgnoresPcr(pkt, pkt1.pcrBase, raw1, st1);
    PtsEffect(pkt1, raw1, st1);
    PcrKeepsPts(pkt, raw, st);
    PtsKeepsPcr(pkt1, raw1, st1);
  }

  lemma SmoothKeepsHeader(video: seq<Stream>, pkt: TsPacket, raw: Raw, st: TimeState)
    requires Parse(raw) == Some(pkt)
    ensures var r := Parse(Smooth(video, pkt, raw, st).raw);
            r.Some? && r.value == pkt.(pcrBase := r.value.pcrBase)
  {
    hide Parse, SmoothPcr, SmoothPts;
    SmoothHalves(pkt, raw, st);
  }

  /** What one smoothing step does to each clock. */
  lemma SmoothStep(item: Item, st: TimeState, clock: Clock)
    ensures var (st', out) := SmoothItem(st, item);
            && out.video == item.video
            && ClockStep(Valid(st, clock), Next(st, clock), Valid(st', clock), Next(st', clock), Stamp(item, clock), Stamp(out, clock))
  {
    if Parse(item.raw).Some? && Listed(Parse(item.raw).value.pid, item.video) {
      var pkt := Parse(item.raw).value;
      SmoothHalves(pkt, item.raw, st);
      var (st1, raw1, pcr) := SmoothPcr(pkt, item.raw, st);
      PcrClock(pkt, item.raw, st);
      PtsClock(Parse(raw1).value, raw1, st1);
    }
  }

  lemma SameResidue(x: nat, y: nat)
    requires x % WRAP == y % WRAP
    ensures x - y == (x / WRAP - y / WRAP) * WRAP
  {
  }

  lemma ResidueOf(x: int, r: nat, q: int)
    requires x == r + q * WRAP && r < WRAP
    ensures x % WRAP == r
  {
  }

  lemma AdvancesFrom(last: nat, next: nat, stamp: nat)
    requires next % WRAP == (last + FRAME_TICKS) % WRAP
    requires 0 <= PtsDelta(stamp, next) <= MAX_JUMP
    ensures Advances(last, stamp)
  {
    var d := PtsDelta(stamp, next);
    var a := (stamp - next - d) / WRAP;
    var b := next / WRAP - (last + FRAME_TICKS) / WRAP;
    hide PtsDelta;
    assert stamp - next - d == a * WRAP;
    SameResidue(next, last + FRAME_TICKS);
    ResidueOf(stamp - last, FRAME_TICKS + d, a + b);
  }

  lemma TrailAppend(out: seq<Item>, last: Item, clock: Clock)
    ensures Stamp(last, clock).None? ==> Trail(out + [last], clock) == Trail(out, clock)
    ensures Stamp(last, clock).Some? ==> Trail(out + [last], clock) == Trail(out, clock) + [Stamp(last, clock).value]
  {
    assert (out + [last])[..|out + [last]| - 1] == out;
  }

  lemma AppendPaced(trail: seq<nat>, valid: bool, next: nat, valid': bool, next': nat, stamp: nat)
    requires Paced(trail) && (valid <==> trail != [])
    requires valid ==> next % WRAP == (trail[|trail| - 1] + FRAME_TICKS) % WRAP
    requires ClockStep(valid, next, valid', next', Some(0), Some(stamp))
    ensures Paced(trail + [stamp])
  {
    hide PtsDelta, Advances;
    if trail != [] {
      AdvancesFrom(trail[|trail| - 1], next, stamp);
    }
  }

  /** Appending one smoothed packet keeps the pace. */
  lemma PacedStep(st: TimeState, item: Item, out: seq<Item>, clock: Clock)
    requires Paced(Trail(out, clock)) && Remembers(st, clock, Trail(out, clock))
    ensures var (st', last) := SmoothItem(st, item);
            Paced(Trail(out + [last], clock)) && Remembers(st', clock, Trail(out + [last], clock))
  {
    hide SmoothItem, Stamp, Trail, Paced, PtsDelta, Valid, Next;
    SmoothStep(item, st, clock);
    var (st', last) := SmoothItem(st, item);
    TrailAppend(out, last, clock);
    if Stamp(last, clock).Some? {
      AppendPaced(Trail(out, clock), Valid(st, clock), Next(st, clock), Valid(st', clock), Next(st', clock), Stamp(last, clock).value);
    }
  }

  /** Whatever comes in, each clock of what goes out is paced, and the smoother remembers its last stamp. */
  lemma {:induction false} OutputPaced(items: seq<Item>, clock: Clock)
    ensures var (st, out) := SmoothRun(FreshTime(), items);
            Paced(Trail(out, clock)) && Remembers(st, clock, Trail(out, clock))
  {
    if items != [] {
      OutputPaced(items[..|items| - 1], clock);
      var (st1, out1) := SmoothRun(FreshTime(), items[..|items| - 1]);
      PacedStep(st1, items[|items| - 1], out1, clock);
    }
  }

  // ---------- A second smoother finds nothing to do ----------

  /** The second smoother expects what the first one expects, as soon as it expects anything. */
  predicate Tracks(second: TimeState, first: TimeState)
  {
    forall clock :: Valid(second, clock) ==> Valid(first, clock) && Next(second, clock) % WRAP == Next(first, clock) % WRAP
  }

  /** A clock step that finds the stamp in place. */
  lemma InPlace(first: TimeState, second: TimeState, clock: Clock, stamp: nat)
    requires Tracks(second, first)
    requires Valid(first, clock) ==> 0 <= PtsDelta(stamp, Next(first, clock)) <= MAX_JUMP
    ensures !OutOfPlace(Valid(second, clock), stamp, Next(second, clock))
  {
    if Valid(second, clock) {
      DeltaIsModular(stamp, Next(second, clock), stamp, Next(first, clock));
    }
  }

  predicate DtsNear(raw: Raw, at: nat, pts: nat)
    requires at + 10 <= PACKET_SIZE
  {
    -MAX_JUMP <= PtsDelta(ReadPts33(raw, at + 5), pts) <= MAX_JUMP
  }

  lemma WrittenDtsNear(raw: Raw, at: nat, pts: nat)
    requires at + 10 <= PACKET_SIZE
    ensures DtsNear(WritePts33(raw, at + 5, pts), at, pts)
  {
    PtsRoundTrip(raw, at + 5, pts);
    Wraps(pts, 0);
    DeltaIsModular(pts % WRAP, pts, pts, pts);
    NoDelta(pts);
  }

  /** A decoding time the smoother has passed is near the presentation time. */
  lemma DtsSettled(raw: Raw, at: nat, pts: nat, forced: bool, pts': nat)
    requires 9 <= at && at + 5 <= PACKET_SIZE && pts % WRAP == pts' % WRAP
    ensures SmoothDts(SmoothDts(raw, at, pts, forced), at, pts', false) == SmoothDts(raw, at, pts, forced)
  {
    var r := SmoothDts(raw, at, pts, forced);
    if HasDts(raw, at) {
      assert DtsNear(r, at, pts) by {
        WrittenDtsNear(raw, at, pts);
      }
      DeltaIsModular(ReadPts33(r, at + 5), pts, ReadPts33(r, at + 5), pts');
    }
  }

  lemma PtsSettled(pkt: TsPacket, raw: Raw, first: TimeState, second: TimeState)
    requires Parse(raw) == Some(pkt) && Tracks(second, first)
    ensures var (first', raw1, pts) := SmoothPts(pkt, raw, first);
            var (second', raw2, again) := SmoothPts(pkt, raw1, second);
            raw2 == raw1 && !again && second'.ptsValid == (second.ptsValid || PtsSite(pkt, raw).Some?)
  {
    var (first', raw1, pts) := SmoothPts(pkt, raw, first);
    PtsEffect(pkt, raw, first);
    PtsClock(pkt, raw, first);
    if PtsSite(pkt, raw).Some? {
      var at := PtsSite(pkt, raw).value;
      InPlace(first, second, Pts, ReadPts33(raw1, at));
      PtsEdit(pkt, raw, first);
      var out := if pts then first.nextPts else ReadPts33(raw, at);
      var stamped := if pts then WritePts33(raw, at, out) else raw;
      Wraps(out, 0);
      DtsSettled(stamped, at, out, pts, ReadPts33(raw1, at));
    }
  }

  lemma PtsReadsPts(pkt: TsPacket, raw: Raw, a: TimeState, b: TimeState)
    requires Layout(pkt) && a.ptsValid == b.ptsValid && a.nextPts == b.nextPts
    ensures SmoothPts(pkt, raw, a).1 == SmoothPts(pkt, raw, b).1
  {
  }

  /** A clock reference in place is not rewritten. */
  lemma PcrSettled(pkt: TsPacket, raw: Raw, second: TimeState)
    requires Parse(raw) == Some(pkt)
    requires PcrOf(raw).Some? ==> !OutOfPlace(second.pcrValid, PcrOf(raw).value, second.nextPcr)
    ensures SmoothPcr(pkt, raw, second).1 == raw
  {
  }

  lemma ItemSettled(item: Item, first: TimeState, second: TimeState)
    requires Tracks(second, first)
    ensures var (first', out) := SmoothItem(first, item);
            var (second', again) := SmoothItem(second, out);
            again == out
  {
    hide Parse, SmoothPcr, SmoothPts, PtsOf, PtsDelta, PtsSite, Tracks;
    if Parse(item.raw).Some? && Listed(Parse(item.raw).value.pid, item.video) {
      var pkt := Parse(item.raw).value;
      SmoothHalves(pkt, item.raw, first);
      var (first1, raw1, pcr) := SmoothPcr(pkt, item.raw, first);
      var pkt1 := Parse(raw1).value;
      var (first2, raw2, pts) := SmoothPts(pkt1, raw1, first1);
      PcrClock(pkt, item.raw, first);
      if PcrOf(raw2).Some? {
        InPlace(first, second, Pcr, PcrOf(raw2).value);
      }
      PcrSettled(pkt1, raw2, second);
      PcrClock(pkt1, raw2, second);
      var second1 := SmoothPcr(pkt1, raw2, second).0;
      PtsSettled(pkt1, raw1, first, second);
      PtsReadsPts(pkt1, raw1, first, first1);
      PtsReadsPts(pkt1, raw2, second, second1);
    }
  }

  /** One more packet keeps the two smoothers together. */
  lemma TracksStep(item: Item, first: TimeState, second: TimeState)
    requires Tracks(second, first)
    ensures var (first', out) := SmoothItem(first, item);
            var (second', again) := SmoothItem(second, out);
            again == out && Tracks(second', first')
  {
    ItemSettled(item, first, second);
    var (first', out) := SmoothItem(first, item);
    forall clock | Valid(SmoothItem(second, out).0, clock)
      ensures Valid(first', clock) && Next(SmoothItem(second, out).0, clock) % WRAP == Next(first', clock) % WRAP
    {
      SmoothStep(item, first, clock);
      SmoothStep(out, second, clock);
    }
  }

  lemma {:induction false} RunSettled(items: seq<Item>, st: TimeState)
    ensures var (first, out) := SmoothRun(st, items);
            SmoothRun(FreshTime(), out).1 == out && Tracks(SmoothRun(FreshTime(), out).0, first)
  {
    if items != [] {
      RunSettled(items[..|items| - 1], st);
      var (first, out1) := SmoothRun(st, items[..|items| - 1]);
      var item := items[|items| - 1];
      TracksStep(item, first, SmoothRun(FreshTime(), out1).0);
      var out := out1 + [SmoothItem(first, item).1];
      assert out[..|out| - 1] == out1;
    }
  }

  /** Smoothing is idempotent: a fresh smoother changes no byte of what any smoother has let through. */
  lemma SmoothingIdempotent(items: seq<Item>, st: TimeState)
    ensures SmoothRun(FreshTime(), SmoothRun(st, items).1).1 == SmoothRun(st, items).1
  {
    RunSettled(items, st);
  }
}
