// From PES to emitted stream (src/recovery.c:158-163, 230-261): what the split loop caches and keeps, and that
// the streams put together again from it are exactly those units.
module RecoveryStreams {
  import opened Bytes
  import opened AnnexB
  import opened RankModels
  import opened RecoverySpec
  import opened RecoveryInvariants

  predicate LongEnough(codec: Codec, n: Nal)
  {
    |n.body| >= if codec == H265 then 2 else 1
  }

  /** The units a candidate keeps: slices of keyframes (H.264 type 5; H.265 types 19 to 21), delimiters and supplemental
      information (H.264 types 9 and 6; H.265 types 35, 39 and 40). */
  predicate NalKept(codec: Codec, n: Nal)
  {
    if codec == H265 then |n.body| >= 2 && N(n.body[0]) / 2 % 64 in {19, 20, 21, 35, 39, 40}
    else |n.body| >= 1 && N(n.body[0]) % 32 in {5, 6, 9}
  }

  lemma KindsAgree(codec: Codec, n: Nal, slot: nat)
    requires n.body != []
    ensures NalKept(codec, n) <==> LongEnough(codec, n) && IsKept(codec, NalType(codec, n.body[0]))
    ensures IsSetNal(codec, slot, n) <==> CleanNal(n) && LongEnough(codec, n) && HeaderSlot(codec, NalType(codec, n.body[0])) == Some(slot)
  {
    hide CleanNal;
  }

  /** The units a candidate keeps of an access unit. */
  function KeptNals(codec: Codec, nals: seq<Nal>): (r: seq<Nal>)
    ensures CleanNals(nals) ==> CleanNals(r)
  {
    if nals == [] then [] else
    (if NalKept(codec, nals[0]) then [nals[0]] else []) + KeptNals(codec, nals[1..])
  }

  predicate AllKept(codec: Codec, nals: seq<Nal>)
  {
    forall i :: 0 <= i < |nals| ==> NalKept(codec, nals[i])
  }

  lemma {:induction false} KeptNalsKept(codec: Codec, nals: seq<Nal>)
    ensures AllKept(codec, KeptNals(codec, nals))
  {
    if nals != [] {
      KeptNalsKept(codec, nals[1..]);
    }
  }

  /** An access unit as the split loop met it, closed or looked at: its number and its elementary stream. */
  datatype UnitSeen = UnitSeen(index: nat, data: seq<byte>)

  /** The units the split loop visits. */
  function NalsOf(data: seq<byte>): (r: seq<Nal>)
    ensures |r| == |Split(data)|
  {
    var us := Split(data);
    seq(|us|, i requires 0 <= i < |us| => Nal(us[i].prefix, data[us[i].at + us[i].prefix..us[i].end]))
  }

  lemma NalsOfJoin(nals: seq<Nal>)
    requires CleanNals(nals)
    ensures NalsOf(Join(nals)) == nals
  {
    hide CleanBody, Split, Join, Places, NalBytes;
    SplitOfJoin(nals);
    var data, us := Join(nals), Places(nals, 0);
    assert [] + data == data;
    if nals == [] {
      NoPlaces(0);
    } else {
      PlacedBytes([], nals, 0);
    }
    forall i | 0 <= i < |nals| ensures NalsOf(data)[i] == nals[i] {
      PlacedBytes([], nals, i);
      BodyOf(data, us[i], nals[i]);
    }
  }

  lemma BodyOf(data: seq<byte>, u: Unit, n: Nal)
    requires 3 <= n.prefix <= 4 && u.prefix == n.prefix && u.at + u.prefix <= u.end <= |data| && data[u.at..u.end] == NalBytes(n)
    ensures data[u.at + u.prefix..u.end] == n.body
  {
    assert data[u.at + u.prefix..u.end] == data[u.at..u.end][u.prefix..];
  }

  /** A unit of one of the access units seen. */
  predicate InSeen(seen: seq<UnitSeen>, n: Nal)
  {
    exists k :: 0 <= k < |seen| && n in NalsOf(seen[k].data)
  }

  /** The units a candidate keeps of an access unit. */
  function KeptOf(codec: Codec, u: UnitSeen): seq<Nal>
  {
    KeptNals(codec, NalsOf(u.data))
  }

  /** A clean unit of the parameter-set kind of a slot: SPS and PPS (H.264 types 7 and 8), or VPS, SPS and PPS (H.265 types
      32 to 34). */
  predicate IsSetNal(codec: Codec, slot: nat, n: Nal)
  {
    && CleanNal(n)
    && if codec == H265 then slot < 3 && |n.body| >= 2 && N(n.body[0]) / 2 % 64 == 32 + slot
       else slot < 2 && |n.body| >= 1 && N(n.body[0]) % 32 == 7 + slot
  }

  ghost predicate HoldsSet(seen: seq<UnitSeen>, codec: Codec, slot: nat, bytes: seq<byte>)
  {
    exists n: Nal :: IsSetNal(codec, slot, n) && NalBytes(n) == bytes && InSeen(seen, n)
  }

  /** Each cached parameter set is one clean unit of an access unit seen, of the kind its slot is for. */
  ghost predicate HeadersClean(seen: seq<UnitSeen>, codec: Codec, headers: Headers)
  {
    forall i :: 0 <= i < 3 ==> headers[i] == [] || HoldsSet(seen, codec, i, headers[i])
  }

  ghost predicate IsCleanStream(data: seq<byte>)
  {
    exists nals :: CleanNals(nals) && Join(nals) == data
  }

  /** Clean units, all of the kinds a candidate keeps. */
  predicate AreKept(codec: Codec, kept: seq<Nal>)
  {
    CleanNals(kept) && AllKept(codec, kept)
  }

  /** The bytes are the kept units of an access unit seen under that number. */
  ghost predicate IsKeptStream(seen: seq<UnitSeen>, codec: Codec, index: nat, data: seq<byte>)
  {
    exists k :: 0 <= k < |seen| && KeptFrom(seen[k], codec, index, data)
  }

  predicate KeptFrom(u: UnitSeen, codec: Codec, index: nat, data: seq<byte>)
  {
    u.index == index && AreKept(codec, KeptOf(codec, u)) && data == Join(KeptOf(codec, u))
  }

  ghost predicate CandidateClean(seen: seq<UnitSeen>, codec: Codec, c: Candidate)
  {
    c.features.codec == codec && IsKeptStream(seen, codec, c.features.index, c.data)
  }

  ghost predicate CandidatesClean(seen: seq<UnitSeen>, codec: Codec, candidates: seq<Candidate>)
  {
    forall i :: 0 <= i < |candidates| ==> CandidateClean(seen, codec, candidates[i])
  }

  /** Where a unit ends that starts at `at`. */
  function EndOf(n: Nal, at: nat): nat
  {
    at + n.prefix + |n.body|
  }

  /** The bytes of `n` stand at `at`. */
  predicate NalAt(data: seq<byte>, at: nat, n: Nal)
  {
    at + n.prefix < |data| && EndOf(n, at) <= |data| && data[at..EndOf(n, at)] == NalBytes(n)
  }

  lemma NalAtParts(data: seq<byte>, at: nat, n: Nal)
    requires NalAt(data, at, n)
    ensures at + n.prefix < |data| && EndOf(n, at) <= |data| && data[at..EndOf(n, at)] == NalBytes(n)
  {
    hide NalBytes;
  }

  lemma OneNalInPlace(codec: Codec, data: seq<byte>, at: nat, n: Nal)
    requires CleanNal(n) && NalAt(data, at, n)
    ensures data[at + n.prefix] == n.body[0]
    ensures HasNalHeader(codec, Unit(at, n.prefix, EndOf(n, at))) <==> LongEnough(codec, n)
  {
    assert data[at + n.prefix] == data[at..EndOf(n, at)][n.prefix];
  }

  lemma SetClean(seen: seq<UnitSeen>, codec: Codec, headers: Headers, slot: nat, n: Nal)
    requires HeadersClean(seen, codec, headers) && slot < 3 && IsSetNal(codec, slot, n) && InSeen(seen, n)
    ensures HeadersClean(seen, codec, headers[slot := NalBytes(n)])
  {
    hide IsSetNal, NalBytes, InSeen;
    assert HoldsSet(seen, codec, slot, NalBytes(n));
  }

  /** The scan of one unit: what it keeps, and which slot it may fill. */
  lemma OneNalEffect(codec: Codec, scan: Scan, data: seq<byte>, at: nat, n: Nal)
    requires CleanNal(n) && NalAt(data, at, n)
    requires at + n.prefix < |data| && EndOf(n, at) <= |data|
    ensures var r := ScanUnit(codec, scan, data, Unit(at, n.prefix, EndOf(n, at)));
            && r.data == scan.data + (if NalKept(codec, n) then NalBytes(n) else [])
            && (r.headers == scan.headers
                || exists slot :: 0 <= slot < 3 && IsSetNal(codec, slot, n) && r.headers == scan.headers[slot := NalBytes(n)])
  {
    OneNalTurn(codec, scan, data, at, n);
    forall slot: nat ensures IsSetNal(codec, slot, n) <==>
        CleanNal(n) && LongEnough(codec, n) && HeaderSlot(codec, NalType(codec, n.body[0])) == Some(slot) {
      KindsAgree(codec, n, slot);
    }
    KindsAgree(codec, n, 0);
    hide IsSetNal, NalKept, CleanNal, NalBytes, LongEnough, ScanUnit, ScanSlice, ScanHeader, NalType, IsKept, HeaderSlot, NalAt;
    assert scan.data + [] == scan.data;
    if LongEnough(codec, n) {
      var t := NalType(codec, n.body[0]);
      var slot := HeaderSlot(codec, t);
      if slot.Some? {
        HeaderFrame(scan, slot.value, NalBytes(n));
        assert IsSetNal(codec, slot.value, n);
      }
      var s1 := if slot.Some? then ScanHeader(scan, slot.value, NalBytes(n)) else scan;
      SliceFrame(s1, codec, t, |NalBytes(n)|);
    }
  }

  /** The scan of one unit, told from the unit itself. */
  lemma OneNalTurn(codec: Codec, scan: Scan, data: seq<byte>, at: nat, n: Nal)
    requires CleanNal(n) && NalAt(data, at, n)
    requires at + n.prefix < |data| && EndOf(n, at) <= |data|
    ensures n.body != []
    ensures ScanUnit(codec, scan, data, Unit(at, n.prefix, EndOf(n, at))) ==
            if !LongEnough(codec, n) then scan else
            var t := NalType(codec, n.body[0]);
            var slot := HeaderSlot(codec, t);
            var s1 := if slot.Some? then ScanHeader(scan, slot.value, NalBytes(n)) else scan;
            var s2 := ScanSlice(s1, codec, t, |NalBytes(n)|);
            if IsKept(codec, t) then s2.(data := s2.data + NalBytes(n)) else s2
  {
    OneNalInPlace(codec, data, at, n);
    assert n.body != [];
    hide CleanNal, NalBytes, HasNalHeader, LongEnough, ScanSlice, ScanHeader, NalType, IsKept, HeaderSlot, NalAt;
    assert data[at..EndOf(n, at)] == NalBytes(n) by { NalAtParts(data, at, n); }
  }

  lemma HeaderFrame(scan: Scan, slot: nat, unit: seq<byte>)
    requires slot < 3
    ensures var r := ScanHeader(scan, slot, unit);
            r.data == scan.data && (r.headers == scan.headers || r.headers == scan.headers[slot := unit])
  {
  }

  lemma ScanOneNal(seen: seq<UnitSeen>, codec: Codec, scan: Scan, data: seq<byte>, at: nat, n: Nal)
    requires CleanNal(n) && InSeen(seen, n) && HeadersClean(seen, codec, scan.headers) && NalAt(data, at, n)
    ensures var r := ScanUnit(codec, scan, data, Unit(at, n.prefix, EndOf(n, at)));
            && r.data == scan.data + (if NalKept(codec, n) then NalBytes(n) else [])
            && HeadersClean(seen, codec, r.headers)
  {
    OneNalEffect(codec, scan, data, at, n);
    hide CleanNal, NalBytes, NalAt, IsSetNal, ScanUnit, HeadersClean, InSeen;
    var r := ScanUnit(codec, scan, data, Unit(at, n.prefix, EndOf(n, at)));
    if r.headers != scan.headers {
      var slot :| 0 <= slot < 3 && IsSetNal(codec, slot, n) && r.headers == scan.headers[slot := NalBytes(n)];
      SetClean(seen, codec, scan.headers, slot, n);
    }
  }

  lemma SliceFrame(scan: Scan, codec: Codec, t: nat, size: nat)
    ensures ScanSlice(scan, codec, t, size).data == scan.data && ScanSlice(scan, codec, t, size).headers == scan.headers
  {
  }

  /** Units that lie inside the data. */
  predicate PlacedIn(data: seq<byte>, us: seq<Unit>)
  {
    forall u :: u in us ==> u.at + u.prefix < |data| && u.at <= u.end <= |data|
  }

  lemma PlacesFirst(nals: seq<Nal>, at: nat)
    requires nals != []
    ensures var end := at + nals[0].prefix + |nals[0].body|;
            Places(nals, at) != [] && Places(nals, at)[0] == Unit(at, nals[0].prefix, end)
                && Places(nals, at)[1..] == Places(nals[1..], end)
  {
  }

  lemma Chain(before: seq<byte>, one: seq<byte>, more: seq<byte>, middle: seq<byte>, all: seq<byte>, after: seq<byte>)
    requires middle == before + one && after == middle + more && all == one + more
    ensures after == before + all
  {
  }

  lemma ScanNothing(codec: Codec, scan: Scan, data: seq<byte>, at: nat)
    ensures ScanUnits(codec, scan, data, Places([], at)) == scan
    ensures scan.data + Join(KeptNals(codec, [])) == scan.data
  {
  }

  lemma ScanTurn(codec: Codec, scan: Scan, data: seq<byte>, us: seq<Unit>)
    requires us != [] && PlacedIn(data, us)
    ensures PlacedIn(data, us[1..]) && us[0] in us
    ensures ScanUnits(codec, scan, data, us) == ScanUnits(codec, ScanUnit(codec, scan, data, us[0]), data, us[1..])
  {
    hide ScanUnit;
  }

  /** From `at` on the data is a joined stream. */
  predicate JoinedAt(data: seq<byte>, at: nat, nals: seq<Nal>)
  {
    at <= |data| && data[at..] == Join(nals)
  }

  /** A joined stream of clean units, its first unit taken off. */
  lemma JoinedFirst(data: seq<byte>, at: nat, nals: seq<Nal>)
    requires nals != [] && CleanNals(nals) && JoinedAt(data, at, nals)
    ensures CleanNal(nals[0]) && CleanNals(nals[1..])
    ensures NalAt(data, at, nals[0]) && JoinedAt(data, EndOf(nals[0], at), nals[1..])
  {
    assert |NalBytes(nals[0])| == nals[0].prefix + |nals[0].body| > nals[0].prefix;
    hide CleanBody, NalBytes;
    CutTail(data, at, NalBytes(nals[0]), Join(nals[1..]));
  }

  lemma CutTail(data: seq<byte>, at: nat, one: seq<byte>, rest: seq<byte>)
    requires at <= |data| && data[at..] == one + rest
    ensures at + |one| <= |data| && data[at..at + |one|] == one && data[at + |one|..] == rest
  {
    var tail := data[at..];
    assert tail[..|one|] == one && tail[|one|..] == rest;
    assert data[at..at + |one|] == tail[..|one|] && data[at + |one|..] == tail[|one|..];
  }

  lemma PlacedFirst(data: seq<byte>, at: nat, nals: seq<Nal>)
    requires nals != [] && NalAt(data, at, nals[0]) && PlacedIn(data, Places(nals[1..], EndOf(nals[0], at)))
    ensures PlacedIn(data, Places(nals, at))
  {
    hide NalBytes;
    PlacesFirst(nals, at);
    var us := Places(nals, at);
    forall u | u in us ensures u.at + u.prefix < |data| && u.at <= u.end <= |data| {
      assert us == [us[0]] + us[1..];
    }
  }

  lemma {:induction false} PlacesInside(data: seq<byte>, at: nat, nals: seq<Nal>)
    requires CleanNals(nals) && JoinedAt(data, at, nals)
    ensures PlacedIn(data, Places(nals, at))
    decreases |nals|
  {
    if nals != [] {
      hide JoinedAt, Places, PlacedIn, CleanNals, NalAt;
      JoinedFirst(data, at, nals);
      PlacesInside(data, EndOf(nals[0], at), nals[1..]);
      PlacedFirst(data, at, nals);
    }
  }

  /** What a scan leaves, told from the units it went over. */
  ghost predicate Scans(seen: seq<UnitSeen>, codec: Codec, scan: Scan, data: seq<byte>, nals: seq<Nal>, at: nat)
    requires PlacedIn(data, Places(nals, at))
  {
    var r := ScanUnits(codec, scan, data, Places(nals, at));
    r.data == scan.data + Join(KeptNals(codec, nals)) && HeadersClean(seen, codec, r.headers)
  }

  lemma ScansMore(seen: seq<UnitSeen>, codec: Codec, scan: Scan, scan': Scan, data: seq<byte>, at: nat, nals: seq<Nal>)
    requires nals != [] && PlacedIn(data, Places(nals, at)) && PlacedIn(data, Places(nals[1..], EndOf(nals[0], at)))
    requires NalAt(data, at, nals[0]) && scan' == ScanUnit(codec, scan, data, Unit(at, nals[0].prefix, EndOf(nals[0], at)))
    requires scan'.data == scan.data + (if NalKept(codec, nals[0]) then NalBytes(nals[0]) else [])
    requires Scans(seen, codec, scan', data, nals[1..], EndOf(nals[0], at))
    ensures Scans(seen, codec, scan, data, nals, at)
  {
    hide ScanUnits, ScanUnit, HeadersClean, NalKept, NalBytes, Join, Places, KeptNals;
    var n, us := nals[0], Places(nals, at);
    PlacesFirst(nals, at);
    ScanTurn(codec, scan, data, us);
    KeptFirst(codec, nals);
    Chain(scan.data, if NalKept(codec, n) then NalBytes(n) else [], Join(KeptNals(codec, nals[1..])),
          scan'.data, Join(KeptNals(codec, nals)), ScanUnits(codec, scan, data, us).data);
  }

  predicate AllSeen(seen: seq<UnitSeen>, nals: seq<Nal>)
  {
    forall i :: 0 <= i < |nals| ==> InSeen(seen, nals[i])
  }

  /** Scanning a stream of clean units keeps exactly the units meant to be kept, and caches clean units. */
  lemma {:induction false} ScanJoined(seen: seq<UnitSeen>, codec: Codec, scan: Scan, data: seq<byte>, at: nat, nals: seq<Nal>)
    requires CleanNals(nals) && AllSeen(seen, nals) && HeadersClean(seen, codec, scan.headers) && JoinedAt(data, at, nals)
    ensures PlacedIn(data, Places(nals, at)) && Scans(seen, codec, scan, data, nals, at)
    decreases |nals|
  {
    PlacesInside(data, at, nals);
    hide ScanUnits, ScanUnit, HeadersClean, CleanNal, CleanNals, NalBytes, Join, Places, KeptNals, PlacedIn, JoinedAt, InSeen;
    if nals == [] {
      ScanNothing(codec, scan, data, at);
    } else {
      hide Scans;
      var end := EndOf(nals[0], at);
      JoinedFirst(data, at, nals);
      ScanOneNal(seen, codec, scan, data, at, nals[0]);
      var scan' := ScanUnit(codec, scan, data, Unit(at, nals[0].prefix, end));
      ScanJoined(seen, codec, scan', data, end, nals[1..]);
      ScansMore(seen, codec, scan, scan', data, at, nals);
    }
  }

  lemma KeptFirst(codec: Codec, nals: seq<Nal>)
    requires nals != []
    ensures Join(KeptNals(codec, nals)) ==
            (if NalKept(codec, nals[0]) then NalBytes(nals[0]) else []) + Join(KeptNals(codec, nals[1..]))
  {
    var kept := KeptNals(codec, nals[1..]);
    if NalKept(codec, nals[0]) {
      assert ([nals[0]] + kept)[1..] == kept;
    } else {
      assert [] + kept == kept;
      assert [] + Join(kept) == Join(kept);
    }
  }

  /** The candidate of an access unit that is a stream of clean units consists of exactly its kept units. */
  lemma ScanOfCleanPes(seen: seq<UnitSeen>, st: Rec, nals: seq<Nal>)
    requires st.current[PACKETS] != 0.0 && CleanNals(nals) && Elementary(st.pes) == Join(nals)
    requires AllSeen(seen, nals) && HeadersClean(seen, st.codec, st.headers)
    ensures ScanPes(st).data == Join(KeptNals(st.codec, nals)) && AreKept(st.codec, KeptNals(st.codec, nals))
    ensures HeadersClean(seen, st.codec, ScanPes(st).headers)
  {
    hide AllSeen, HeadersClean;
    var es := Elementary(st.pes);
    var averaged := st.current[PACKET_CONFIDENCE := st.current[PACKET_CONFIDENCE] / st.current[PACKETS]];
    SplitOfJoin(nals);
    assert es[0..] == es;
    KeptNalsKept(st.codec, nals);
    ScanJoined(seen, st.codec, Scan(st.headers, st.headerVersion, st.dirty, averaged, [], 0, 0), es, 0, nals);
    assert [] + Join(KeptNals(st.codec, nals)) == Join(KeptNals(st.codec, nals));
  }

  /** The access unit a scan of the open PES goes over, if any. */
  function SeenNow(st: Rec): (r: seq<UnitSeen>)
    ensures |r| <= 1
  {
    if st.current[PACKETS] == 0.0 then [] else [UnitSeen(st.counters.accessUnits, Elementary(st.pes))]
  }

  ghost predicate AllClean(seen: seq<UnitSeen>)
  {
    forall k :: 0 <= k < |seen| ==> IsCleanStream(seen[k].data)
  }

  // ---------- Emitted streams ----------

  /** Parameter sets of the slots from 0 on, in order. */
  predicate AreSets(codec: Codec, hs: seq<Nal>)
  {
    forall i :: 0 <= i < |hs| ==> IsSetNal(codec, i, hs[i])
  }

  /** Names the cached parameter sets as units of the access units seen. */
  lemma HeaderNals(seen: seq<UnitSeen>, codec: Codec, headers: Headers, n: nat) returns (hs: seq<Nal>)
    requires n <= 3 && HeadersClean(seen, codec, headers) && forall i :: 0 <= i < n ==> headers[i] != []
    ensures |hs| == n && AreSets(codec, hs) && AllSeen(seen, hs) && HeaderBytes(headers, n) == Join(hs)
  {
    if n == 0 {
      hs := [];
    } else {
      hide InSeen, IsSetNal, NalBytes, Join, AreSets, AllSeen, HeadersClean;
      var front := HeaderNals(seen, codec, headers, n - 1);
      var last := HeaderNal(seen, codec, headers, n - 1);
      hs := front + [last];
      SetsAppend(seen, codec, front, last);
      JoinAppend(front, [last]);
      JoinOne(last);
    }
  }

  lemma HeaderNal(seen: seq<UnitSeen>, codec: Codec, headers: Headers, i: nat) returns (n: Nal)
    requires i < 3 && HeadersClean(seen, codec, headers) && headers[i] != []
    ensures IsSetNal(codec, i, n) && NalBytes(n) == headers[i] && InSeen(seen, n)
  {
    hide InSeen, IsSetNal, NalBytes;
    assert HoldsSet(seen, codec, i, headers[i]);
    n :| IsSetNal(codec, i, n) && NalBytes(n) == headers[i] && InSeen(seen, n);
  }

  lemma SetsAppend(seen: seq<UnitSeen>, codec: Codec, front: seq<Nal>, last: Nal)
    requires AreSets(codec, front) && AllSeen(seen, front) && IsSetNal(codec, |front|, last) && InSeen(seen, last)
    ensures AreSets(codec, front + [last]) && AllSeen(seen, front + [last])
  {
    hide InSeen, IsSetNal;
  }

  lemma JoinOne(n: Nal)
    ensures Join([n]) == NalBytes(n)
  {
    assert Join([n]) == NalBytes(n) + Join([]) == NalBytes(n);
  }

  /** The bytes split into the parameter sets of the codec, each of its kind, followed by the given units. */
  predicate SplitsInto(codec: Codec, data: seq<byte>, hs: seq<Nal>, kept: seq<Nal>)
  {
    && |hs| == Required(codec) && AreSets(codec, hs) && AreKept(codec, kept)
    && data == Join(hs + kept) && Split(data) == Places(hs + kept, 0)
  }

  /** A stream splits into parameter sets that were units of access units seen, and exactly the kept units of the k-th of
      these access units, whose number the stream carries. */
  predicate ShownAs(seen: seq<UnitSeen>, s: Shown, hs: seq<Nal>, k: nat)
  {
    && k < |seen| && seen[k].index == s.features.index
    && AllSeen(seen, hs) && SplitsInto(s.features.codec, s.data, hs, KeptOf(s.features.codec, seen[k]))
  }

  /** A stream that is not the outcome of a vote does so for one of them. */
  ghost predicate ShownClean(seen: seq<UnitSeen>, s: Shown)
  {
    s.voted || exists hs: seq<Nal>, k: nat :: ShownAs(seen, s, hs, k)
  }

  ghost predicate AllShownClean(seen: seq<UnitSeen>, shown: seq<Shown>)
  {
    forall i :: 0 <= i < |shown| ==> ShownClean(seen, shown[i])
  }

  lemma SetsAndKept(codec: Codec, hs: seq<Nal>, kept: seq<Nal>)
    requires |hs| == Required(codec) && AreSets(codec, hs) && AreKept(codec, kept)
    ensures SplitsInto(codec, Join(hs) + Join(kept), hs, kept)
  {
    JoinAppend(hs, kept);
    SplitOfJoin(hs + kept);
  }

  ghost predicate Clean(seen: seq<UnitSeen>, st: Rec)
  {
    HeadersClean(seen, st.codec, st.headers) && CandidatesClean(seen, st.codec, st.candidates)
  }

  /** The stream emitted for a candidate that keeps these units splits back into exactly the cached parameter sets,
      each of its kind, followed by exactly those units. */
  lemma EmittedSplits(seen: seq<UnitSeen>, st: Rec, i: nat, kept: seq<Nal>) returns (hs: seq<Nal>)
    requires HeadersComplete(st.codec, st.headers) && HeadersClean(seen, st.codec, st.headers)
    requires i < |st.candidates| && AreKept(st.codec, kept) && st.candidates[i].data == Join(kept)
    ensures Join(hs) == HeaderBytes(st.headers, Required(st.codec)) && AllSeen(seen, hs)
    ensures SplitsInto(st.codec, HeaderBytes(st.headers, Required(st.codec)) + st.candidates[i].data, hs, kept)
  {
    hide SplitsInto, HeaderBytes, AreKept;
    hs := HeaderNals(seen, st.codec, st.headers, Required(st.codec));
    SetsAndKept(st.codec, hs, kept);
  }

  /** What the emission loop shows for a candidate of a clean state. */
  lemma EmissionClean(seen: seq<UnitSeen>, st: Rec, i: nat)
    requires HeadersComplete(st.codec, st.headers) && Clean(seen, st) && i < |st.candidates|
    ensures ShownClean(seen, Shown(HeaderBytes(st.headers, Required(st.codec)) + st.candidates[i].data, st.candidates[i].features,
                                   false, st.headerVersion))
  {
    hide SplitsInto, HeaderBytes, AreKept, KeptOf, HeadersClean, HeadersComplete;
    var c := st.candidates[i];
    assert CandidateClean(seen, st.codec, c);
    var k :| 0 <= k < |seen| && KeptFrom(seen[k], st.codec, c.features.index, c.data);
    var hs := EmittedSplits(seen, st, i, KeptOf(st.codec, seen[k]));
    assert ShownAs(seen, Shown(HeaderBytes(st.headers, Required(st.codec)) + c.data, c.features, false, st.headerVersion), hs, k);
  }

  // ---------- Clean streams stay clean ----------

  lemma ShownAppend(seen: seq<UnitSeen>, shown: seq<Shown>, s: Shown)
    requires AllShownClean(seen, shown) && ShownClean(seen, s)
    ensures AllShownClean(seen, shown + [s])
  {
    hide ShownClean;
  }

  /** A clean state, and nothing unclean shown so far. */
  ghost predicate CleanSoFar(seen: seq<UnitSeen>, st: Rec)
  {
    Clean(seen, st) && AllShownClean(seen, st.out.shown)
  }

  lemma CleanFrame(seen: seq<UnitSeen>, a: Rec, b: Rec, version: nat)
    requires Clean(seen, a) && SameCandidates(a.candidates, b.candidates, version) && b.headers == a.headers && b.codec == a.codec
    ensures Clean(seen, b)
  {
    hide IsKeptStream, HeadersClean;
    forall i | 0 <= i < |b.candidates| ensures CandidateClean(seen, b.codec, b.candidates[i]) {
      assert CandidateClean(seen, a.codec, a.candidates[i]);
      assert b.candidates[i] == a.candidates[i].(emitted := b.candidates[i].emitted);
    }
  }

  lemma {:induction false} EmitRankedClean(seen: seq<UnitSeen>, cfg: Config, w: World, st: Rec, order: seq<nat>, i: nat, emitted: nat)
    requires forall k :: 0 <= k < |order| ==> order[k] < |st.candidates|
    requires HeadersComplete(st.codec, st.headers) && CleanSoFar(seen, st)
    ensures CleanSoFar(seen, EmitRanked(cfg, w, st, order, i, emitted).0)
    decreases |order| - i
  {
    hide Emit, HeaderBytes, HeadersComplete, Clean, AllShownClean, ShownClean;
    if i < |order| && emitted < cfg.maxCandidates {
      var c := st.candidates[order[i]];
      if c.emitted == st.headerVersion {
        EmitRankedClean(seen, cfg, w, st, order, i + 1, emitted);
      } else {
        var data := HeaderBytes(st.headers, Required(st.codec)) + c.data;
        EmissionClean(seen, st, order[i]);
        ShownAppend(seen, st.out.shown, Shown(data, c.features, false, st.headerVersion));
        EmitOk(cfg, w, st, data, c.features, false);
        var (st1, ok) := Emit(cfg, w, st, data, c.features, false);
        CleanFrame(seen, st, st1, st.headerVersion);
        if ok {
          var st2 := st1.(candidates := st.candidates[order[i] := c.(emitted := st.headerVersion)]);
          CleanFrame(seen, st, st2, st.headerVersion);
          EmitRankedClean(seen, cfg, w, st2, order, i + 1, emitted + 1);
        }
      }
    }
  }

  lemma {:induction false} VoteClean(seen: seq<UnitSeen>, cfg: Config, w: World, st: Rec, order: seq<nat>, i: nat)
    requires i <= |order| && forall k :: 0 <= k < |order| ==> order[k] < |st.candidates|
    requires CleanSoFar(seen, st)
    ensures CleanSoFar(seen, Vote(cfg, w, st, order, i).0)
    decreases |order| - i
  {
    hide Emit, HeaderBytes, Members, VotedSlice, BucketSeen, Bucket, Clean, AllShownClean;
    if i < |order| {
      var c := st.candidates[order[i]];
      var members := Members(st.candidates, order[i..], Bucket(c));
      if BucketSeen(st.candidates, order, i, Bucket(c)) || |members| < 2 {
        VoteClean(seen, cfg, w, st, order, i + 1);
      } else {
        var data := HeaderBytes(st.headers, Required(st.codec)) + VotedSlice(cfg, members);
        EmitOk(cfg, w, st, data, c.features, true);
        ShownAppend(seen, st.out.shown, Shown(data, c.features, true, st.headerVersion));
        var (st1, ok) := Emit(cfg, w, st, data, c.features, true);
        CleanFrame(seen, st, st1, st.headerVersion);
        if ok {
          VoteClean(seen, cfg, w, st1, order, i + 1);
        }
      }
    }
  }

  /** Whatever an analysis shows the host, votes apart, splits into parameter sets and kept units. */
  lemma AnalyzeStaysClean(seen: seq<UnitSeen>, cfg: Config, w: World, st: Rec)
    requires CleanSoFar(seen, st)
    ensures CleanSoFar(seen, Analyze(cfg, w, st).0)
  {
    hide EmitRanked, Vote, Ranked, HeadersComplete, Clean, AllShownClean;
    if HeadersComplete(st.codec, st.headers) {
      var order := Ranked(st.candidates);
      EmitRankedClean(seen, cfg, w, st, order, 0, 0);
      var (st1, ok1) := EmitRanked(cfg, w, st, order, 0, 0);
      if ok1 {
        var (st2, ok2) := if cfg.vote && st1.dirty then Vote(cfg, w, st1, order, 0) else (st1, true);
        if cfg.vote && st1.dirty {
          VoteClean(seen, cfg, w, st1, order, 0);
        }
        SettledClean(seen, st2);
      }
    }
  }

  lemma SettledClean(seen: seq<UnitSeen>, st: Rec)
    requires CleanSoFar(seen, st)
    ensures CleanSoFar(seen, st.(dirty := false))
  {
  }

  lemma {:induction false} EvictIsSuffix(candidates: seq<Candidate>, retained: int, size: nat, budget: nat)
    ensures var kept := Evict(candidates, retained, size, budget).0;
            kept == candidates[|candidates| - |kept|..]
    decreases |candidates|
  {
    if candidates != [] && (|candidates| == MAX_CANDIDATES || retained + size > budget) {
      EvictIsSuffix(candidates[1..], retained - |candidates[0].data|, size, budget);
    }
  }

  lemma {:induction false} EvictKeepsClean(seen: seq<UnitSeen>, codec: Codec, candidates: seq<Candidate>, retained: int, size: nat, budget: nat)
    requires CandidatesClean(seen, codec, candidates)
    ensures CandidatesClean(seen, codec, Evict(candidates, retained, size, budget).0)
  {
    hide IsKeptStream;
    EvictIsSuffix(candidates, retained, size, budget);
  }

  lemma OthersClean(seen: seq<UnitSeen>, codec: Codec, candidates: seq<Candidate>, index: nat)
    requires CandidatesClean(seen, codec, candidates)
    ensures CandidatesClean(seen, codec, Others(candidates, index).0)
  {
    hide IsKeptStream, FindIndex;
  }

  lemma StoreStaysClean(seen: seq<UnitSeen>, cfg: Config, st: Rec, scan: Scan, f: Features)
    requires CleanSoFar(seen, st) && ScanInside(scan) && IsKeptStream(seen, st.codec, f.index, scan.data) && f.codec == st.codec
    ensures CleanSoFar(seen, Store(cfg, st, scan, f))
  {
    hide Evict, FindIndex, IsKeptStream, HeadersClean, Others, AllShownClean;
    var (others, freed) := Others(st.candidates, f.index);
    OthersClean(seen, st.codec, st.candidates, f.index);
    EvictKeepsClean(seen, st.codec, others, st.retained - freed, |scan.data|, cfg.maxBytes / 2);
  }

  lemma SeenLater(seen: seq<UnitSeen>, more: seq<UnitSeen>, n: Nal)
    requires InSeen(seen, n)
    ensures InSeen(seen + more, n)
  {
    var k :| 0 <= k < |seen| && n in NalsOf(seen[k].data);
    assert (seen + more)[k] == seen[k];
  }

  lemma HeadersLater(seen: seq<UnitSeen>, more: seq<UnitSeen>, codec: Codec, headers: Headers)
    requires HeadersClean(seen, codec, headers)
    ensures HeadersClean(seen + more, codec, headers)
  {
    hide InSeen, IsSetNal, NalBytes;
    forall i | 0 <= i < 3 && headers[i] != [] ensures HoldsSet(seen + more, codec, i, headers[i]) {
      assert HoldsSet(seen, codec, i, headers[i]);
      var n: Nal :| IsSetNal(codec, i, n) && NalBytes(n) == headers[i] && InSeen(seen, n);
      SeenLater(seen, more, n);
    }
  }

  lemma CandidateLater(seen: seq<UnitSeen>, more: seq<UnitSeen>, codec: Codec, c: Candidate)
    requires CandidateClean(seen, codec, c)
    ensures CandidateClean(seen + more, codec, c)
  {
    hide KeptFrom;
    var k :| 0 <= k < |seen| && KeptFrom(seen[k], codec, c.features.index, c.data);
    assert (seen + more)[k] == seen[k];
  }

  lemma ShownLater(seen: seq<UnitSeen>, more: seq<UnitSeen>, s: Shown)
    requires ShownClean(seen, s)
    ensures ShownClean(seen + more, s)
  {
    hide SplitsInto, InSeen, KeptOf;
    if !s.voted {
      var hs: seq<Nal>, k: nat :| ShownAs(seen, s, hs, k);
      forall i | 0 <= i < |hs| ensures InSeen(seen + more, hs[i]) {
        SeenLater(seen, more, hs[i]);
      }
      assert (seen + more)[k] == seen[k];
      assert ShownAs(seen + more, s, hs, k);
    }
  }

  /** What was seen earlier stays seen. */
  lemma CleanLater(seen: seq<UnitSeen>, more: seq<UnitSeen>, st: Rec)
    requires CleanSoFar(seen, st)
    ensures CleanSoFar(seen + more, st)
  {
    hide HeadersClean, CandidateClean, ShownClean;
    HeadersLater(seen, more, st.codec, st.headers);
    forall i | 0 <= i < |st.candidates| ensures CandidateClean(seen + more, st.codec, st.candidates[i]) {
      CandidateLater(seen, more, st.codec, st.candidates[i]);
    }
    forall i | 0 <= i < |st.out.shown| ensures ShownClean(seen + more, st.out.shown[i]) {
      ShownLater(seen, more, st.out.shown[i]);
    }
  }

  /** The candidate of an access unit just seen, and the headers it leaves. */
  lemma ScanIsKept(seen: seq<UnitSeen>, st: Rec)
    requires st.current[PACKETS] != 0.0 && IsCleanStream(Elementary(st.pes)) && HeadersClean(seen, st.codec, st.headers)
    requires seen != [] && seen[|seen| - 1] == UnitSeen(st.counters.accessUnits, Elementary(st.pes))
    ensures IsKeptStream(seen, st.codec, st.counters.accessUnits, ScanPes(st).data)
    ensures HeadersClean(seen, st.codec, ScanPes(st).headers)
  {
    hide ScanPes, HeadersClean, CleanNals, Join, AreKept, NalsOf;
    var nals :| CleanNals(nals) && Join(nals) == Elementary(st.pes);
    NalsOfJoin(nals);
    forall i | 0 <= i < |nals| ensures InSeen(seen, nals[i]) {
      assert nals[i] in NalsOf(seen[|seen| - 1].data);
    }
    ScanOfCleanPes(seen, st, nals);
    assert KeptFrom(seen[|seen| - 1], st.codec, st.counters.accessUnits, ScanPes(st).data);
  }

  /** As long as the access units are streams of clean units, so is everything the engine stores and shows, and each
      stream holds what it kept of the access unit whose number it carries. */
  lemma FinishStaysClean(seen: seq<UnitSeen>, cfg: Config, w: World, st: Rec, partial: bool)
    requires CleanSoFar(seen, st) && AllClean(SeenNow(st))
    ensures CleanSoFar(seen + SeenNow(st), FinishPes(cfg, w, st, partial).0)
  {
    var all := seen + SeenNow(st);
    CleanLater(seen, SeenNow(st), st);
    if st.current[PACKETS] != 0.0 {
      assert IsCleanStream(SeenNow(st)[0].data);
      ScanIsKept(all, st);
      hide ScanPes, Store, Analyze, HeadersClean, CandidatesClean, IsKeptStream, AllShownClean, HeuristicScore;
      var scan := ScanPes(st);
      var f := UnitFeatures(st, scan);
      var st1 := Scanned(st, scan, partial);
      var st2 := if partial then st1 else Record(st1, f);
      StoreStaysClean(all, cfg, st2, scan, f);
      var st3 := Store(cfg, st2, scan, f);
      var st4 := if partial then st3 else StartUnit(st3);
      AnalyzeStaysClean(all, cfg, w, st4);
    }
  }

  // ---------- The header cache keeps the longest ----------

  predicate IsHeaderUnit(codec: Codec, data: seq<byte>, u: Unit, slot: nat)
    requires u.at + u.prefix < |data| && u.at <= u.end <= |data|
  {
    HasNalHeader(codec, u) && HeaderSlot(codec, NalType(codec, data[u.at + u.prefix])) == Some(slot)
  }

  /** After a scan a slot holds what it held before or a longer unit of its type, and no admissible unit of its type
      is longer than what it holds. */
  lemma {:induction false} LongestHeaderWins(codec: Codec, scan: Scan, data: seq<byte>, us: seq<Unit>, slot: nat)
    requires slot < 3 && forall u :: u in us ==> u.at + u.prefix < |data| && u.at <= u.end <= |data|
    ensures var r := ScanUnits(codec, scan, data, us);
            && |r.headers[slot]| >= |scan.headers[slot]|
            && (r.headers[slot] == scan.headers[slot]
                || exists k :: 0 <= k < |us| && IsHeaderUnit(codec, data, us[k], slot)
                               && r.headers[slot] == data[us[k].at..us[k].end])
            && forall k :: 0 <= k < |us| && IsHeaderUnit(codec, data, us[k], slot) && us[k].end - us[k].at <= MAX_HEADER ==>
                 |r.headers[slot]| >= us[k].end - us[k].at
    decreases |us|
  {
    if us != [] {
      var scan1 := ScanUnit(codec, scan, data, us[0]);
      HeaderStep(codec, scan, data, us[0], slot);
      hide ScanUnit, IsHeaderUnit;
      LongestHeaderWins(codec, scan1, data, us[1..], slot);
      var r := ScanUnits(codec, scan, data, us);
      if r.headers[slot] != scan1.headers[slot] {
        var k :| 0 <= k < |us[1..]| && IsHeaderUnit(codec, data, us[1..][k], slot)
                 && r.headers[slot] == data[us[1..][k].at..us[1..][k].end];
        assert us[k + 1] == us[1..][k];
      } else if scan1.headers[slot] != scan.headers[slot] {
        assert IsHeaderUnit(codec, data, us[0], slot);
      }
      forall k | 0 <= k < |us| && IsHeaderUnit(codec, data, us[k], slot) && us[k].end - us[k].at <= MAX_HEADER
        ensures |r.headers[slot]| >= us[k].end - us[k].at
      {
        if k > 0 {
          assert us[k] == us[1..][k - 1];
        }
      }
    }
  }

  lemma HeaderStep(codec: Codec, scan: Scan, data: seq<byte>, u: Unit, slot: nat)
    requires slot < 3 && u.at + u.prefix < |data| && u.at <= u.end <= |data|
    ensures var r := ScanUnit(codec, scan, data, u);
            && |r.headers[slot]| >= |scan.headers[slot]|
            && (r.headers[slot] != scan.headers[slot] ==>
                  IsHeaderUnit(codec, data, u, slot) && r.headers[slot] == data[u.at..u.end])
            && (IsHeaderUnit(codec, data, u, slot) && u.end - u.at <= MAX_HEADER ==> |r.headers[slot]| >= u.end - u.at)
  {
  }
}
