// What the features of an access unit mean, and how it is scored (src/recovery.c:225-275, 300-335).
module RecoveryFeatures {
  import opened Bytes
  import opened TsPackets
  import opened AnnexB
  import opened RankModels
  import opened RecoverySpec
  import opened RecoveryInvariants
  import opened RecoveryStreams

  // ---------- What the units of an access unit give ----------

  /** A slice of a keyframe. */
  predicate KeyNal(codec: Codec, n: Nal)
  {
    if codec == H265 then |n.body| >= 2 && N(n.body[0]) / 2 % 64 in {19, 20, 21} else |n.body| >= 1 && N(n.body[0]) % 32 == 5
  }

  /** A slice of any picture. */
  predicate SliceNal(codec: Codec, n: Nal)
  {
    if codec == H265 then |n.body| >= 2 && N(n.body[0]) / 2 % 64 < 32 else |n.body| >= 1 && N(n.body[0]) % 32 in {1, 5}
  }

  function SliceBytes(codec: Codec, nals: seq<Nal>): nat
  {
    if nals == [] then 0 else (if SliceNal(codec, nals[0]) then |NalBytes(nals[0])| else 0) + SliceBytes(codec, nals[1..])
  }

  function FirstKey(codec: Codec, nals: seq<Nal>): Option<Nal>
  {
    if nals == [] then None else if KeyNal(codec, nals[0]) then Some(nals[0]) else FirstKey(codec, nals[1..])
  }

  /** Values that differ in these places at most. */
  predicate OnlySlices(a: Values, b: Values)
  {
    forall i :: 0 <= i < FEATURE_COUNT && i !in {SLICE_BYTES, IDR_BYTES, HAS_IDR} ==> b[i] == a[i]
  }

  /** The key slice in the bytes gathered. */
  predicate KeySliceIs(scan: Scan, bytes: seq<byte>)
  {
    && scan.keySize == |bytes| && scan.keyOffset + scan.keySize <= |scan.data|
    && scan.data[scan.keyOffset..scan.keyOffset + scan.keySize] == bytes
  }

  /** What some units add: the bytes of all slices, and, unless a key slice is known, the first of a keyframe. */
  predicate Gathers(codec: Codec, before: Scan, after: Scan, nals: seq<Nal>)
  {
    && before.data <= after.data
    && OnlySlices(before.values, after.values)
    && after.values[SLICE_BYTES] == before.values[SLICE_BYTES] + SliceBytes(codec, nals) as real
    && after.values[HAS_IDR] == (if FirstKey(codec, nals).Some? then 1.0 else before.values[HAS_IDR])
    && (if before.keySize > 0 || FirstKey(codec, nals).None?
        then after.keySize == before.keySize && after.keyOffset == before.keyOffset
             && after.values[IDR_BYTES] == before.values[IDR_BYTES]
        else KeySliceIs(after, NalBytes(FirstKey(codec, nals).value))
             && after.values[IDR_BYTES] == |NalBytes(FirstKey(codec, nals).value)| as real)
  }

  lemma KindsTell(codec: Codec, n: Nal)
    requires n.body != []
    ensures KeyNal(codec, n) <==> LongEnough(codec, n) && IsKey(codec, NalType(codec, n.body[0]))
    ensures SliceNal(codec, n) <==> LongEnough(codec, n) && IsSlice(codec, NalType(codec, n.body[0]))
    ensures KeyNal(codec, n) ==> SliceNal(codec, n) && NalKept(codec, n)
  {
  }

  /** One unit. */
  lemma OneGathers(codec: Codec, scan: Scan, data: seq<byte>, at: nat, n: Nal)
    requires CleanNal(n) && NalAt(data, at, n) && ScanInside(scan)
    ensures Gathers(codec, scan, ScanUnit(codec, scan, data, Unit(at, n.prefix, EndOf(n, at))), [n])
  {
    OneNalTurn(codec, scan, data, at, n);
    KindsTell(codec, n);
    KindsAgree(codec, n, 0);
    OneNalSums(codec, n);
    hide CleanNal, NalBytes, LongEnough, ScanUnit, NalType, IsKept, IsKey, IsSlice, HeaderSlot, NalAt, KeyNal, SliceNal, NalKept,
         FirstKey, SliceBytes;
    var r := ScanUnit(codec, scan, data, Unit(at, n.prefix, EndOf(n, at)));
    if LongEnough(codec, n) {
      var t := NalType(codec, n.body[0]);
      var slot := HeaderSlot(codec, t);
      var s1 := if slot.Some? then ScanHeader(scan, slot.value, NalBytes(n)) else scan;
      SliceGathers(s1, codec, t, NalBytes(n), IsKept(codec, t));
    }
  }

  lemma OneNalSums(codec: Codec, n: Nal)
    ensures SliceBytes(codec, [n]) == if SliceNal(codec, n) then |NalBytes(n)| else 0
    ensures FirstKey(codec, [n]) == if KeyNal(codec, n) then Some(n) else None
  {
    hide NalBytes, SliceNal, KeyNal;
  }

  /** The slice part of one unit, and the bytes it leaves. */
  lemma SliceGathers(s1: Scan, codec: Codec, t: nat, bytes: seq<byte>, kept: bool)
    requires ScanInside(s1) && (IsKey(codec, t) ==> kept)
    ensures var s2 := ScanSlice(s1, codec, t, |bytes|);
            var r := if kept then s2.(data := s2.data + bytes) else s2;
            && s1.data <= r.data && OnlySlices(s1.values, r.values)
            && r.values[SLICE_BYTES] == s1.values[SLICE_BYTES] + (if IsSlice(codec, t) then |bytes| as real else 0.0)
            && r.values[HAS_IDR] == (if IsKey(codec, t) then 1.0 else s1.values[HAS_IDR])
            && (if s1.keySize > 0 || !IsKey(codec, t)
                then r.keySize == s1.keySize && r.keyOffset == s1.keyOffset && r.values[IDR_BYTES] == s1.values[IDR_BYTES]
                else KeySliceIs(r, bytes) && r.values[IDR_BYTES] == |bytes| as real)
  {
    hide IsKey, IsSlice;
  }

  lemma GathersNothing(codec: Codec, scan: Scan)
    ensures Gathers(codec, scan, scan, [])
  {
  }

  lemma GathersOn(codec: Codec, a: Scan, b: Scan, c: Scan, n: Nal, nals: seq<Nal>)
    requires nals != [] && nals[0] == n && CleanNal(n)
    requires Gathers(codec, a, b, [n]) && Gathers(codec, b, c, nals[1..])
    ensures Gathers(codec, a, c, nals)
  {
    OneNalSums(codec, n);
    assert SliceBytes(codec, nals) == SliceBytes(codec, [n]) + SliceBytes(codec, nals[1..]);
    assert |NalBytes(n)| > 0;
    hide NalBytes, SliceBytes, KeyNal, CleanNal;
    if a.keySize == 0 && FirstKey(codec, [n]).Some? {
      var k := b.keyOffset + b.keySize;
      assert c.data[..|b.data|] == b.data;
      assert c.data[b.keyOffset..k] == c.data[..|b.data|][b.keyOffset..k];
    }
  }

  /** A stream of clean units, unit by unit. */
  lemma {:induction false} AllGather(codec: Codec, scan: Scan, data: seq<byte>, at: nat, nals: seq<Nal>)
    requires CleanNals(nals) && JoinedAt(data, at, nals) && ScanInside(scan)
    ensures PlacedIn(data, Places(nals, at)) && Gathers(codec, scan, ScanUnits(codec, scan, data, Places(nals, at)), nals)
    decreases |nals|
  {
    PlacesInside(data, at, nals);
    hide ScanUnits, ScanUnit, CleanNal, CleanNals, NalBytes, Join, Places, PlacedIn, JoinedAt, Gathers;
    if nals == [] {
      ScanNothing(codec, scan, data, at);
      GathersNothing(codec, scan);
    } else {
      var n, end := nals[0], EndOf(nals[0], at);
      JoinedFirst(data, at, nals);
      OneGathers(codec, scan, data, at, n);
      var scan' := ScanUnit(codec, scan, data, Unit(at, n.prefix, end));
      StillInside(codec, scan, data, at, n);
      AllGather(codec, scan', data, end, nals[1..]);
      TurnOn(codec, scan, data, at, nals);
      FirstClean(nals);
      GathersOn(codec, scan, scan', ScanUnits(codec, scan, data, Places(nals, at)), n, nals);
    }
  }

  lemma FirstClean(nals: seq<Nal>)
    requires nals != [] && CleanNals(nals)
    ensures CleanNal(nals[0])
  {
  }

  lemma TurnOn(codec: Codec, scan: Scan, data: seq<byte>, at: nat, nals: seq<Nal>)
    requires nals != [] && PlacedIn(data, Places(nals, at)) && at + nals[0].prefix < |data| && EndOf(nals[0], at) <= |data|
    ensures PlacedIn(data, Places(nals[1..], EndOf(nals[0], at)))
    ensures ScanUnits(codec, scan, data, Places(nals, at)) ==
            ScanUnits(codec, ScanUnit(codec, scan, data, Unit(at, nals[0].prefix, EndOf(nals[0], at))), data,
                      Places(nals[1..], EndOf(nals[0], at)))
  {
    hide ScanUnits, ScanUnit, Places, PlacedIn;
    PlacesFirst(nals, at);
    ScanTurn(codec, scan, data, Places(nals, at));
  }

  lemma StillInside(codec: Codec, scan: Scan, data: seq<byte>, at: nat, n: Nal)
    requires NalAt(data, at, n) && ScanInside(scan)
    ensures ScanInside(ScanUnit(codec, scan, data, Unit(at, n.prefix, EndOf(n, at))))
  {
    hide ScanUnit;
  }

  /** The features an access unit of clean units is recorded with: whether it holds a keyframe, the bytes of its slices and
      of the first slice of a keyframe, which is the candidate's key slice; the confidence is the mean over its packets, and
      everything else is the evidence of the packets. */
  lemma FeaturesOfCleanPes(st: Rec, nals: seq<Nal>)
    requires st.current[PACKETS] != 0.0 && CurrentOk(st.current) && CleanNals(nals) && Elementary(st.pes) == Join(nals)
    ensures var scan, key := ScanPes(st), FirstKey(st.codec, nals);
            && scan.values[SLICE_BYTES] == SliceBytes(st.codec, nals) as real
            && scan.values[HAS_IDR] == (if key.Some? then 1.0 else 0.0)
            && scan.values[IDR_BYTES] == (if key.Some? then |NalBytes(key.value)| as real else 0.0)
            && (if key.Some? then KeySliceIs(scan, NalBytes(key.value)) else scan.keySize == 0)
            && scan.values[PACKET_CONFIDENCE] == st.current[PACKET_CONFIDENCE] / st.current[PACKETS]
            && forall i :: 0 <= i < FEATURE_COUNT && i !in {PACKET_CONFIDENCE, SLICE_BYTES, IDR_BYTES, HAS_IDR} ==>
                 scan.values[i] == st.current[i]
  {
    var es := Elementary(st.pes);
    var averaged := st.current[PACKET_CONFIDENCE := st.current[PACKET_CONFIDENCE] / st.current[PACKETS]];
    SplitOfJoin(nals);
    assert es[0..] == es;
    AllGather(st.codec, Scan(st.headers, st.headerVersion, st.dirty, averaged, [], 0, 0), es, 0, nals);
    hide ScanUnits, Split, Join, NalBytes, SliceBytes, FirstKey;
  }

  // ---------- The evidence of a packet ----------

  /** What one packet adds, told from the packet, the entropy of its payload and the last counter. */
  lemma PacketEvidence(v: Values, pkt: TsPacket, payload: seq<byte>, entropy: real, last: int)
    requires pkt.continuityCounter < 16 && last < 16
    ensures var r := CountPacket(v, pkt, payload, entropy, last);
            var gap := (pkt.continuityCounter - last - 1) % 16;
            var broken := last >= 0 && gap != 0;
            && r[PACKETS] == v[PACKETS] + 1.0
            && r[LOW_ENTROPY] == v[LOW_ENTROPY] + (if entropy < 1.0 then 1.0 else 0.0)
            && r[HIGH_ENTROPY] == v[HIGH_ENTROPY] + (if entropy > 7.85 then 1.0 else 0.0)
            && r[BAD_PES_STARTS] == v[BAD_PES_STARTS] + (if pkt.payloadUnitStart && !(payload[..if |payload| < 3 then |payload| else 3] == [0, 0, 1]) then 1.0 else 0.0)
            && r[CC_ERRORS] == v[CC_ERRORS] + (if broken then 1.0 else 0.0)
            && r[MISSING_BY_CC] == v[MISSING_BY_CC] + (if broken && gap <= 8 then gap as real else 0.0)
            && r[OUT_OF_ORDER] == v[OUT_OF_ORDER] + (if broken && 9 <= gap < 15 then 1.0 else 0.0)
            && r[SLICE_BYTES] == v[SLICE_BYTES] && r[IDR_BYTES] == v[IDR_BYTES] && r[HAS_IDR] == v[HAS_IDR]
            && v[PACKET_CONFIDENCE] <= r[PACKET_CONFIDENCE] <= v[PACKET_CONFIDENCE] + 1.0
  {
    StartTold(payload);
    hide Confidence, StartsPes;
  }

  lemma StartTold(payload: seq<byte>)
    ensures StartsPes(payload) <==> payload[..if |payload| < 3 then |payload| else 3] == [0, 0, 1]
  {
    if |payload| >= 3 {
      assert payload[..3] == [payload[0], payload[1], payload[2]];
    }
  }

  /** A sound packet, in order, of ordinary entropy, inside a unit. */
  lemma SoundConfidence(pkt: TsPacket, payload: seq<byte>, entropy: real, last: int)
    requires !pkt.transportError && pkt.scrambling == 0 && !pkt.payloadUnitStart && 1.0 <= entropy <= 7.85
    requires last < 0 || pkt.continuityCounter == (last + 1) % 16
    ensures Confidence(pkt, payload, entropy, last) == 0.90
  {
  }

  /** What each sign of damage is worth, everything else being the same. */
  lemma DamageCosts(pkt: TsPacket, payload: seq<byte>, entropy: real, last: int)
    ensures var c := Confidence(pkt, payload, entropy, last);
            && Confidence(pkt.(transportError := true), payload, entropy, last) ==
               Confidence(pkt.(transportError := false), payload, entropy, last) - 0.70
            && (pkt.scrambling != 0 ==> c == Confidence(pkt.(scrambling := 0), payload, entropy, last) - 0.45)
            && (entropy < 1.0 ==> c == Confidence(pkt, payload, 4.0, last) - 0.28)
            && (entropy > 7.85 ==> c == Confidence(pkt, payload, 4.0, last) - 0.18)
  {
    SayOfOrder(pkt, pkt.(transportError := true), last);
    SayOfOrder(pkt, pkt.(transportError := false), last);
    SayOfOrder(pkt, pkt.(scrambling := 0), last);
    hide CcSay, StartsPes;
  }

  lemma SayOfOrder(a: TsPacket, b: TsPacket, last: int)
    requires a.continuityCounter == b.continuityCounter
    ensures CcSay(a, last) == CcSay(b, last)
  {
  }

  /** What a start is worth, and what the order. */
  lemma OrderCounts(pkt: TsPacket, payload: seq<byte>, entropy: real, last: int)
    requires pkt.continuityCounter < 16 && last < 16
    ensures pkt.payloadUnitStart ==>
              Confidence(pkt, payload, entropy, last) ==
              Confidence(pkt.(payloadUnitStart := false), payload, entropy, last) + if StartsPes(payload) then 0.16 else -0.30
    ensures var gap := (pkt.continuityCounter - last - 1) % 16;
            last >= 0 && gap != 0 ==>
              Confidence(pkt, payload, entropy, last) ==
              Confidence(pkt, payload, entropy, -1) - 0.12
              - if gap <= 4 then 0.12 * gap as real else if gap <= 8 then 0.55 else if gap == 15 then 0.25 else 0.35
  {
    SayOfOrder(pkt, pkt.(payloadUnitStart := false), last);
    SayOfGap(pkt, last);
    hide CcSay, StartsPes, EntropySay;
  }

  lemma SayOfGap(pkt: TsPacket, last: int)
    requires pkt.continuityCounter < 16 && last < 16
    ensures CcSay(pkt, -1) == 0.12
    ensures var gap := (pkt.continuityCounter - last - 1) % 16;
            last >= 0 && gap != 0 ==>
              CcSay(pkt, last) == if gap <= 4 then -0.12 * gap as real else if gap <= 8 then -0.55 else if gap == 15 then -0.25 else -0.35
  {
    if last >= 0 {
      var gap := (pkt.continuityCounter - last - 1) % 16;
      assert (last + 1 + gap) % 16 == pkt.continuityCounter;
    }
  }

  /** The confidence a packet is counted with lies between zero and one. */
  lemma ConfidenceCounted(v: Values, pkt: TsPacket, payload: seq<byte>, entropy: real, last: int)
    ensures var c := Confidence(pkt, payload, entropy, last);
            CountPacket(v, pkt, payload, entropy, last)[PACKET_CONFIDENCE] ==
            v[PACKET_CONFIDENCE] + if c < 0.0 then 0.0 else if c > 1.0 then 1.0 else c
  {
    hide Confidence;
  }

  // ---------- The heuristic score ----------

  /** The score without a model: a byte of slice counts one, a missing packet costs 188, an error 64, a packet out of order
      128 and a bad start 96; and confidence counts the whole part of 128 times its excess over one half, per packet. */
  lemma HeuristicMeans(v: Values)
    ensures var whole := HeuristicScore(v) - (v[SLICE_BYTES] - 188.0 * v[MISSING_BY_CC] - 64.0 * v[CC_ERRORS] - 128.0 * v[OUT_OF_ORDER]
                                              - 96.0 * v[BAD_PES_STARTS]);
            var x := (v[PACKET_CONFIDENCE] - 0.5) * v[PACKETS] * 128.0;
            && whole == whole.Floor as real
            && (if x >= 0.0 then x - 1.0 < whole <= x else x <= whole < x + 1.0)
  {
  }

  // ---------- Voting ----------

  /** Key slices vote together when their sizes are nearest the same number of packets. */
  lemma BucketIsNearest(c: Candidate)
    ensures 188 * Bucket(c) - 93 <= c.keySize <= 188 * Bucket(c) + 94
  {
  }

  /** The say of a candidate: the whole part of its score, raised by 4096, times one half and its confidence, at least one;
      scores of a model count 1024 times. */
  lemma SayOf(cfg: Config, c: Candidate)
    ensures var score := if cfg.model.enabled then c.features.score * 1024.0 else c.features.score;
            var x := (score + 4096.0) * (0.5 + c.features.values[PACKET_CONFIDENCE]);
            var w := Weight(cfg, c);
            && w == w.Floor as real
            && (if x < 2.0 then w == 1.0 else x - 1.0 < w <= x)
  {
  }
}
