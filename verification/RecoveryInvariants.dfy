// What every step of the recovery engine keeps (src/recovery.c:68-77, 127-140, 210-283).
module RecoveryInvariants {
  import opened Bytes
  import opened TsPackets
  import opened PsiTables
  import opened AnnexB
  import opened RankModels
  import opened RecoverySpec

  // ---------- The invariant ----------

  /** The store holds at most 256 candidates in at most half the budget, its size is known exactly, and the
      access units of the candidates rise strictly. */
  predicate StoreOk(cfg: Config, candidates: seq<Candidate>, retained: int, units: nat)
  {
    && |candidates| <= MAX_CANDIDATES
    && retained == TotalSize(candidates) <= cfg.maxBytes / 2
    && Rising(candidates)
    && forall i :: 0 <= i < |candidates| ==> candidates[i].features.index <= units && candidates[i].keySize > 0
  }

  predicate Rising(candidates: seq<Candidate>)
  {
    forall i, j :: 0 <= i < j < |candidates| ==> candidates[i].features.index < candidates[j].features.index
  }

  /** The cached parameter sets are bounded, and so is the number of their versions. */
  predicate HeadersOk(headers: Headers, version: nat)
  {
    && (forall i :: 0 <= i < 3 ==> |headers[i]| <= MAX_HEADER)
    && version <= |headers[0]| + |headers[1]| + |headers[2]|
    && (version == 0 ==> headers == [[], [], []])
  }

  predicate EmittedOk(candidates: seq<Candidate>, version: nat)
  {
    forall i :: 0 <= i < |candidates| ==> candidates[i].emitted <= version
  }

  /** Images come numbered 1, 2, 3, ... with strictly rising scores and sufficient quality. */
  predicate ImagesOk(cfg: Config, c: Counters, images: seq<Image>)
  {
    && |images| == c.frameVersion
    && (forall i :: 0 <= i < |images| ==> images[i].version == i + 1 && images[i].quality >= cfg.minQuality)
    && (forall i, j :: 0 <= i < j < |images| ==> images[i].score < images[j].score)
    && (images != [] ==> images[|images| - 1].score == c.bestScore)
  }

  /** The evidence gathered for the open access unit; nothing before its first packet. */
  predicate CurrentOk(v: Values)
  {
    && v[PACKETS] >= 0.0
    && (v[PACKETS] == 0.0 ==> v == ZeroValues())
    && v[SLICE_BYTES] == 0.0 && v[IDR_BYTES] == 0.0 && v[HAS_IDR] == 0.0
  }

  predicate PesOk(cfg: Config, st: Rec)
  {
    && |st.pes| <= cfg.maxBytes / 2 && (st.dropping ==> st.pes == [])
    && (st.current[PACKETS] == 0.0 ==> st.pes == [] && !st.dropping)
  }

  /** Kept by every packet, preview, finish and reset, whatever the callbacks and the decoder answer. */
  predicate Safe(cfg: Config, st: Rec)
  {
    && StoreOk(cfg, st.candidates, st.retained, st.counters.accessUnits)
    && HeadersOk(st.headers, st.headerVersion)
    && EmittedOk(st.candidates, st.headerVersion)
    && ImagesOk(cfg, st.counters, st.out.images)
    && CurrentOk(st.current)
    && PesOk(cfg, st)
    && |st.out.numbers| == |st.out.shown|
  }

  // ---------- Sizes ----------

  lemma {:induction false} TotalSizeAppend(a: seq<Candidate>, b: seq<Candidate>)
    ensures TotalSize(a + b) == TotalSize(a) + TotalSize(b)
  {
    if b == [] {
      assert a + b == a;
    } else {
      assert (a + b)[..|a + b| - 1] == a + b[..|b| - 1];
      TotalSizeAppend(a, b[..|b| - 1]);
    }
  }

  lemma TotalSizeOne(c: Candidate)
    ensures TotalSize([c]) == |c.data|
  {
    assert [c][..0] == [];
    assert TotalSize([c]) == TotalSize([c][..0]) + |c.data|;
  }

  lemma TotalSizeFirst(s: seq<Candidate>)
    requires s != []
    ensures TotalSize(s) == |s[0].data| + TotalSize(s[1..])
  {
    assert s == [s[0]] + s[1..];
    TotalSizeAppend([s[0]], s[1..]);
    TotalSizeOne(s[0]);
  }

  /** Eviction drops oldest candidates only, keeps the books, and always ends with room for the newcomer. */
  lemma {:induction false} EvictMakesRoom(candidates: seq<Candidate>, size: nat, budget: nat)
    requires |candidates| <= MAX_CANDIDATES && size <= budget
    ensures var (kept, retained) := Evict(candidates, TotalSize(candidates), size, budget);
            && |kept| <= |candidates| && kept == candidates[|candidates| - |kept|..]
            && retained == TotalSize(kept) && retained + size <= budget && |kept| < MAX_CANDIDATES
    decreases |candidates|
  {
    assert candidates == [] ==> TotalSize(candidates) == 0;
    hide TotalSize;
    if candidates != [] && (|candidates| == MAX_CANDIDATES || TotalSize(candidates) + size > budget) {
      TotalSizeFirst(candidates);
      EvictMakesRoom(candidates[1..], size, budget);
      var kept := Evict(candidates[1..], TotalSize(candidates[1..]), size, budget).0;
      assert candidates[1..][|candidates| - 1 - |kept|..] == candidates[|candidates| - |kept|..];
    }
  }

  /** Eviction stops as soon as there is room: with one candidate more there would be none. */
  lemma {:induction false} EvictDropsNoMore(candidates: seq<Candidate>, retained: int, size: nat, budget: nat)
    ensures var (kept, retained') := Evict(candidates, retained, size, budget);
            |kept| < |candidates| ==>
              var older := candidates[|candidates| - |kept| - 1..];
              |older| == MAX_CANDIDATES || retained' + |older[0].data| + size > budget
    decreases |candidates|
  {
    if candidates != [] && (|candidates| == MAX_CANDIDATES || retained + size > budget) {
      var retained1 := retained - |candidates[0].data|;
      EvictDropsNoMore(candidates[1..], retained1, size, budget);
      var (kept, retained') := Evict(candidates[1..], retained1, size, budget);
      if |kept| < |candidates[1..]| {
        assert candidates[1..][|candidates[1..]| - |kept| - 1..] == candidates[|candidates| - |kept| - 1..];
      } else {
        assert candidates[|candidates| - |kept| - 1..] == candidates;
      }
    }
  }

  predicate AllBelow(candidates: seq<Candidate>, index: nat)
  {
    forall i :: 0 <= i < |candidates| ==> candidates[i].features.index < index
  }

  /** A suffix of older candidates followed by the newcomer. */
  lemma SuffixAppend(others: seq<Candidate>, kept: seq<Candidate>, c: Candidate)
    requires Rising(others) && AllBelow(others, c.features.index)
    requires |kept| <= |others| && kept == others[|others| - |kept|..]
    ensures Rising(kept + [c]) && AllBelow(kept, c.features.index)
    ensures forall k :: 0 <= k < |kept| ==> kept[k] in others
  {
    assert forall k :: 0 <= k < |kept| ==> kept[k] == others[|others| - |kept| + k];
  }

  /** Taking a candidate of the newest access unit in keeps the store in order. */
  lemma KeepOk(cfg: Config, st: Rec, c: Candidate, units: nat)
    requires StoreOk(cfg, st.candidates, st.retained, c.features.index) && c.features.index <= units
    requires |c.data| <= cfg.maxBytes / 2 && c.keySize > 0
    ensures var r := Keep(cfg, st, c);
            && StoreOk(cfg, r.candidates, r.retained, units)
            && r.candidates != [] && r.candidates[|r.candidates| - 1] == c
            && forall k :: 0 <= k < |r.candidates| - 1 ==> r.candidates[k] in st.candidates
  {
    hide Evict, TotalSize, FindIndex, Rising, Others;
    var (others, freed) := Others(st.candidates, c.features.index);
    OthersOk(st.candidates, c.features.index);
    EvictMakesRoom(others, |c.data|, cfg.maxBytes / 2);
    var (kept, retained) := Evict(others, TotalSize(others), |c.data|, cfg.maxBytes / 2);
    SuffixAppend(others, kept, c);
    TotalSizeAppend(kept, [c]);
    TotalSizeOne(c);
    forall k | 0 <= k < |kept| ensures kept[k] in st.candidates {
      assert kept[k] in others;
    }
    StoreAppend(cfg, st.candidates, kept, c, units);
  }

  lemma StoreAppend(cfg: Config, before: seq<Candidate>, kept: seq<Candidate>, c: Candidate, units: nat)
    requires forall i :: 0 <= i < |before| ==> before[i].features.index <= units && before[i].keySize > 0
    requires forall k :: 0 <= k < |kept| ==> kept[k] in before
    requires c.features.index <= units && c.keySize > 0
    requires |kept| < MAX_CANDIDATES && Rising(kept + [c])
    requires TotalSize(kept + [c]) <= cfg.maxBytes / 2
    ensures StoreOk(cfg, kept + [c], TotalSize(kept + [c]), units)
  {
    hide TotalSize, Rising;
    forall i | 0 <= i < |kept + [c]|
      ensures (kept + [c])[i].features.index <= units && (kept + [c])[i].keySize > 0
    {
      if i < |kept| {
        assert kept[i] in before;
      }
    }
  }

  lemma NewestIsLast(candidates: seq<Candidate>, index: nat, i: nat)
    requires Rising(candidates) && forall k :: 0 <= k < |candidates| ==> candidates[k].features.index <= index
    requires i < |candidates| && candidates[i].features.index == index
    ensures i == |candidates| - 1 && AllBelow(candidates[..i], index)
  {
    if i < |candidates| - 1 {
      RisingAt(candidates, i, |candidates| - 1);
    }
  }

  lemma RisingAt(candidates: seq<Candidate>, i: nat, j: nat)
    requires Rising(candidates) && i < j < |candidates|
    ensures candidates[i].features.index < candidates[j].features.index
  {
  }

  lemma FrontOk(candidates: seq<Candidate>)
    requires Rising(candidates) && candidates != []
    ensures var front := candidates[..|candidates| - 1];
            && Rising(front) && (forall i :: 0 <= i < |front| ==> front[i] in candidates)
            && TotalSize(front) == TotalSize(candidates) - |candidates[|candidates| - 1].data|
  {
  }

  /** The candidates of other access units, the one of unit `index` left out. */
  lemma OthersOk(candidates: seq<Candidate>, index: nat)
    requires Rising(candidates) && forall i :: 0 <= i < |candidates| ==> candidates[i].features.index <= index
    ensures var (others, freed) := Others(candidates, index);
            && Rising(others) && |others| <= |candidates|
            && AllBelow(others, index) && (forall i :: 0 <= i < |others| ==> others[i] in candidates)
            && TotalSize(others) == TotalSize(candidates) - freed
  {
    hide FindIndex, Rising, TotalSize;
    var same := FindIndex(candidates, index, 0);
    if same.Some? {
      var i := same.value;
      NewestIsLast(candidates, index, i);
      assert candidates[i + 1..] == [] && candidates[..i] + [] == candidates[..i];
      FrontOk(candidates);
    }
  }

  // ---------- The scan ----------

  predicate ScanOk(scan: Scan)
  {
    && HeadersOk(scan.headers, scan.headerVersion)
    && (scan.values[HAS_IDR] != 0.0 ==> scan.keySize > 0)
  }

  lemma ScanUnitOk(codec: Codec, scan: Scan, data: seq<byte>, u: Unit)
    requires u.at + u.prefix < |data| && u.at <= u.end <= |data| && 3 <= u.prefix && ScanOk(scan)
    ensures var r := ScanUnit(codec, scan, data, u);
            && ScanOk(r)
            && r.headerVersion >= scan.headerVersion
            && |scan.data| <= |r.data| <= |scan.data| + (u.end - u.at)
  {
    hide HeaderSlot, IsKept, IsKey, IsSlice, NalType, ScanHeader, ScanSlice;
    if HasNalHeader(codec, u) {
      var t := NalType(codec, data[u.at + u.prefix]);
      var unit := data[u.at..u.end];
      var slot := HeaderSlot(codec, t);
      if slot.Some? {
        HeaderOk(scan, slot.value, unit);
      }
      SliceOk(if slot.Some? then ScanHeader(scan, slot.value, unit) else scan, codec, t, |unit|);
    }
  }

  lemma HeaderOk(scan: Scan, slot: nat, unit: seq<byte>)
    requires ScanOk(scan) && slot < 3
    ensures var r := ScanHeader(scan, slot, unit);
            ScanOk(r) && r.headerVersion >= scan.headerVersion && r.data == scan.data
  {
  }

  lemma SliceOk(scan: Scan, codec: Codec, t: nat, size: nat)
    requires ScanOk(scan) && size > 0
    ensures var r := ScanSlice(scan, codec, t, size);
            ScanOk(r) && r.headerVersion == scan.headerVersion && r.data == scan.data
  {
    hide HeadersOk;
  }

  /** Scanning keeps the header cache bounded and never gathers more bytes than it reads. */
  lemma {:induction false} ScanFromOk(codec: Codec, scan: Scan, data: seq<byte>, at: nat, prefix: nat)
    requires at <= |data| && (at < |data| ==> prefix == PrefixAt(data, at) != 0) && ScanOk(scan)
    ensures var r := ScanUnits(codec, scan, data, Units(data, at, prefix));
            && ScanOk(r)
            && r.headerVersion >= scan.headerVersion
            && |r.data| <= |scan.data| + (|data| - at)
    decreases |data| - at
  {
    hide ScanUnit, ScanOk;
    if at < |data| {
      var (end, next) := StartCode(data, at + prefix);
      var us := Units(data, at, prefix);
      assert us[1..] == Units(data, end, next);
      ScanUnitOk(codec, scan, data, us[0]);
      ScanFromOk(codec, ScanUnit(codec, scan, data, us[0]), data, end, next);
    }
  }

  lemma ScanPesOk(cfg: Config, st: Rec)
    requires Safe(cfg, st) && st.current[PACKETS] != 0.0
    ensures var scan := ScanPes(st);
            && ScanOk(scan)
            && scan.headerVersion >= st.headerVersion
            && |scan.data| <= cfg.maxBytes / 2
  {
    var es := Elementary(st.pes);
    var (at, prefix) := StartCode(es, 0);
    var averaged := st.current[PACKET_CONFIDENCE := st.current[PACKET_CONFIDENCE] / st.current[PACKETS]];
    ScanFromOk(st.codec, Scan(st.headers, st.headerVersion, st.dirty, averaged, [], 0, 0), es, at, prefix);
  }

  // ---------- Emission and voting ----------

  /** What emitting streams may change: counters, progress and output, with the images staying in order. */
  predicate Emitting(cfg: Config, a: Rec, b: Rec)
  {
    && b == a.(counters := b.counters, progress := b.progress, out := b.out, candidates := b.candidates)
    && b.counters.accessUnits == a.counters.accessUnits
    && b.counters.packetsReceived == a.counters.packetsReceived
    && b.counters.keyframes == a.counters.keyframes
    && b.counters.oversizedUnits == a.counters.oversizedUnits
    && b.out.records == a.out.records
    && |b.out.numbers| - |a.out.numbers| == |b.out.shown| - |a.out.shown|
    && (ImagesOk(cfg, a.counters, a.out.images) ==> ImagesOk(cfg, b.counters, b.out.images))
  }

  /** An accepted image goes on where the last one stopped. */
  lemma NextImage(cfg: Config, c: Counters, images: seq<Image>, score: real, quality: real, c': Counters)
    requires ImagesOk(cfg, c, images) && quality >= cfg.minQuality
    requires c.frameVersion == 0 || score > c.bestScore
    requires c'.frameVersion == c.frameVersion + 1 && c'.bestScore == score
    ensures ImagesOk(cfg, c', images + [Image(c.frameVersion + 1, score, quality)])
  {
  }

  lemma DecodeOk(cfg: Config, w: World, st: Rec, data: seq<byte>, f: Features)
    requires st.counters.frameVersion == 0 || f.score > st.counters.bestScore
    ensures Emitting(cfg, st, Decode(cfg, w, st, data, f))
    ensures Decode(cfg, w, st, data, f).out.shown == st.out.shown
  {
    hide ImagesOk;
    var r := Decode(cfg, w, st, data, f);
    var answer := w.decode(st.out.calls, data, f.codec);
    if ImagesOk(cfg, st.counters, st.out.images) {
      if answer.Some? && answer.value >= cfg.minQuality {
        NextImage(cfg, st.counters, st.out.images, f.score, answer.value, r.counters);
      } else {
        ImagesFrame(cfg, st.counters, r.counters, st.out.images);
      }
    }
  }

  lemma EmitOk(cfg: Config, w: World, st: Rec, data: seq<byte>, f: Features, voted: bool)
    ensures Emitting(cfg, st, Emit(cfg, w, st, data, f, voted).0)
    ensures Emit(cfg, w, st, data, f, voted).0.candidates == st.candidates
    ensures Emit(cfg, w, st, data, f, voted).0.out.shown == st.out.shown + [Shown(data, f, voted, st.headerVersion)]
  {
    hide ImagesOk, Decode;
    var st1 := st.(out := st.out.(calls := st.out.calls + 1, shown := st.out.shown + [Shown(data, f, voted, st.headerVersion)],
                                  numbers := st.out.numbers + [st.out.calls]));
    if st.counters.frameVersion == 0 || f.score > st.counters.bestScore {
      DecodeOk(cfg, w, st1, data, f);
    }
  }

  /** Candidates that differ at most in the version they were last emitted for. */
  predicate SameCandidates(a: seq<Candidate>, b: seq<Candidate>, version: nat)
  {
    && |a| == |b|
    && forall i :: 0 <= i < |a| ==> b[i] == a[i].(emitted := b[i].emitted) && b[i].emitted in {a[i].emitted, version}
  }

  lemma {:induction false} EmitRankedOk(cfg: Config, w: World, st: Rec, order: seq<nat>, i: nat, emitted: nat)
    requires forall k :: 0 <= k < |order| ==> order[k] < |st.candidates|
    ensures var r := EmitRanked(cfg, w, st, order, i, emitted).0;
            Emitting(cfg, st, r) && SameCandidates(st.candidates, r.candidates, st.headerVersion)
    decreases |order| - i
  {
    hide Emit, ImagesOk, HeaderBytes;
    if i < |order| && emitted < cfg.maxCandidates {
      var c := st.candidates[order[i]];
      if c.emitted == st.headerVersion {
        EmitRankedOk(cfg, w, st, order, i + 1, emitted);
      } else {
        var data := HeaderBytes(st.headers, Required(st.codec)) + c.data;
        EmitOk(cfg, w, st, data, c.features, false);
        var (st1, ok) := Emit(cfg, w, st, data, c.features, false);
        if ok {
          EmitRankedOk(cfg, w, st1.(candidates := st.candidates[order[i] := c.(emitted := st.headerVersion)]), order, i + 1, emitted + 1);
        }
      }
    }
  }

  lemma {:induction false} VoteOk(cfg: Config, w: World, st: Rec, order: seq<nat>, i: nat)
    requires i <= |order| && forall k :: 0 <= k < |order| ==> order[k] < |st.candidates|
    ensures var r := Vote(cfg, w, st, order, i).0;
            Emitting(cfg, st, r) && r.candidates == st.candidates
    decreases |order| - i
  {
    hide Emit, ImagesOk, HeaderBytes, Members, VotedSlice, BucketSeen, Bucket;
    if i < |order| {
      var c := st.candidates[order[i]];
      var members := Members(st.candidates, order[i..], Bucket(c));
      if BucketSeen(st.candidates, order, i, Bucket(c)) || |members| < 2 {
        VoteOk(cfg, w, st, order, i + 1);
      } else {
        var data := HeaderBytes(st.headers, Required(st.codec)) + VotedSlice(cfg, members);
        EmitOk(cfg, w, st, data, c.features, true);
        var (st1, ok) := Emit(cfg, w, st, data, c.features, true);
        if ok {
          VoteOk(cfg, w, st1, order, i + 1);
        }
      }
    }
  }

  /** What an analysis may change. */
  predicate Analyzing(cfg: Config, a: Rec, b: Rec)
  {
    && Emitting(cfg, a.(dirty := b.dirty), b)
    && SameCandidates(a.candidates, b.candidates, a.headerVersion)
  }

  lemma AnalyzeOk(cfg: Config, w: World, st: Rec)
    ensures Analyzing(cfg, st, Analyze(cfg, w, st).0)
  {
    hide Emit, ImagesOk, EmitRanked, Vote, Ranked;
    if HeadersComplete(st.codec, st.headers) {
      var order := Ranked(st.candidates);
      EmitRankedOk(cfg, w, st, order, 0, 0);
      var (st1, ok1) := EmitRanked(cfg, w, st, order, 0, 0);
      if ok1 && cfg.vote && st1.dirty {
        VoteOk(cfg, w, st1, order, 0);
      }
    }
  }

  lemma {:induction false} SameTotal(a: seq<Candidate>, b: seq<Candidate>, version: nat)
    requires SameCandidates(a, b, version)
    ensures TotalSize(a) == TotalSize(b)
  {
    if a != [] {
      SameTotal(a[..|a| - 1], b[..|b| - 1], version);
    }
  }

  lemma AnalyzeSafe(cfg: Config, w: World, st: Rec)
    requires Safe(cfg, st)
    ensures Safe(cfg, Analyze(cfg, w, st).0)
  {
    hide Analyze, TotalSize, ImagesOk;
    AnalyzeOk(cfg, w, st);
    SameTotal(st.candidates, Analyze(cfg, w, st).0.candidates, st.headerVersion);
  }

  // ---------- Access units ----------

  /** The state between the scan of a unit and the analysis. */
  lemma StoreSafe(cfg: Config, st: Rec, scan: Scan, f: Features)
    requires ScanInside(scan) && ScanOk(scan) && |scan.data| <= cfg.maxBytes / 2
    requires Safe(cfg, st) && f.values == scan.values
    requires StoreOk(cfg, st.candidates, st.retained, f.index) && f.index <= st.counters.accessUnits
    ensures Safe(cfg, Store(cfg, st, scan, f))
  {
    hide Keep, ImagesOk, TotalSize, Rising;
    if f.values[HAS_IDR] != 0.0 && !st.dropping {
      var ranked := f.(score := RankScore(cfg.model, f.values, f.score));
      var c := CandidateRecord(scan.data, scan.keyOffset, scan.keySize, ranked, 0);
      KeepOk(cfg, st, c, st.counters.accessUnits);
      KeepFrame(cfg, st, c);
      var r := Keep(cfg, st, c);
      forall i | 0 <= i < |r.candidates| ensures r.candidates[i].emitted <= r.headerVersion {
        if i < |r.candidates| - 1 {
          assert r.candidates[i] in st.candidates;
        }
      }
      ImagesFrame(cfg, st.counters, r.counters, st.out.images);
    }
  }

  lemma KeepFrame(cfg: Config, st: Rec, c: Candidate)
    ensures var r := Keep(cfg, st, c);
            r == st.(candidates := r.candidates, retained := r.retained, dirty := true,
                     counters := st.counters.(keyframes := r.counters.keyframes))
  {
  }

  lemma ImagesFrame(cfg: Config, a: Counters, b: Counters, images: seq<Image>)
    requires a.frameVersion == b.frameVersion && a.bestScore == b.bestScore
    ensures ImagesOk(cfg, a, images) == ImagesOk(cfg, b, images)
  {
  }

  lemma ScannedSafe(cfg: Config, st: Rec, partial: bool)
    requires Safe(cfg, st) && st.current[PACKETS] != 0.0
    ensures var r := Scanned(st, ScanPes(st), partial);
            && Safe(cfg, r)
            && StoreOk(cfg, r.candidates, r.retained, st.counters.accessUnits)
            && Safe(cfg, Record(r, UnitFeatures(st, ScanPes(st))))
  {
    ScanPesOk(cfg, st);
    hide ScanPes, TotalSize, Rising, ImagesOk;
    var r := Scanned(st, ScanPes(st), partial);
    ImagesFrame(cfg, st.counters, r.counters, st.out.images);
  }

  lemma StartUnitSafe(cfg: Config, st: Rec)
    requires Safe(cfg, st)
    ensures Safe(cfg, StartUnit(st))
  {
    hide TotalSize, Rising, ImagesOk;
  }

  lemma FinishPesSafe(cfg: Config, w: World, st: Rec, partial: bool)
    requires Safe(cfg, st)
    ensures Safe(cfg, FinishPes(cfg, w, st, partial).0)
  {
    hide ScanPes, Safe, Analyze, UnitFeatures, Scanned, Record, Store, StartUnit;
    if st.current[PACKETS] != 0.0 {
      var scan := ScanPes(st);
      var f := UnitFeatures(st, scan);
      ScannedSafe(cfg, st, partial);
      var st1 := Scanned(st, scan, partial);
      var st2 := if partial then st1 else Record(st1, f);
      if partial || w.featuresOk(st1.out.calls) {
        UnitStored(cfg, st, partial);
        var st3 := Store(cfg, st2, scan, f);
        StartUnitSafe(cfg, st3);
        var st4 := if partial then st3 else StartUnit(st3);
        AnalyzeSafe(cfg, w, st4);
      }
    }
  }

  lemma UnitStored(cfg: Config, st: Rec, partial: bool)
    requires Safe(cfg, st) && st.current[PACKETS] != 0.0
    ensures var scan := ScanPes(st);
            var f := UnitFeatures(st, scan);
            var st1 := Scanned(st, scan, partial);
            Safe(cfg, Store(cfg, if partial then st1 else Record(st1, f), scan, f))
  {
    ScannedSafe(cfg, st, partial);
    ScanPesOk(cfg, st);
    hide ScanPes, TotalSize, Rising, ImagesOk, Store;
    var scan := ScanPes(st);
    var f := UnitFeatures(st, scan);
    var st1 := Scanned(st, scan, partial);
    StoreSafe(cfg, if partial then st1 else Record(st1, f), scan, f);
  }

  // ---------- Packets ----------

  lemma ClearSafe(cfg: Config, st: Rec, counters: Counters, images: seq<Image>)
    requires ImagesOk(cfg, counters, images) && |st.out.numbers| == |st.out.shown|
    ensures Safe(cfg, Clear(st).(counters := counters, out := st.out.(images := images)))
  {
    assert TotalSize([]) == 0;
  }

  lemma SelectSafe(cfg: Config, st: Rec)
    requires Safe(cfg, st)
    ensures Safe(cfg, Select(cfg, st))
  {
    var chosen := Choose(cfg, st.psi.video, 0);
    if chosen.Some? {
      var r := Switch(st, chosen.value.pid, CodecOf(chosen.value.streamType));
      ClearSafe(cfg, st, r.counters, []);
    }
  }

  lemma CountOk(v: Values, pkt: TsPacket, payload: seq<byte>, entropy: real, last: int)
    requires CurrentOk(v)
    ensures CurrentOk(CountPacket(v, pkt, payload, entropy, last))
    ensures CountPacket(v, pkt, payload, entropy, last)[PACKETS] == v[PACKETS] + 1.0 > 0.0
  {
  }

  lemma TakeSafe(cfg: Config, w: World, st: Rec, pkt: TsPacket, raw: Raw)
    requires Safe(cfg, st) && Layout(pkt)
    ensures Safe(cfg, Take(cfg, w, st, pkt, raw))
  {
    hide TotalSize, Rising, ImagesOk, CountPacket, CurrentOk;
    var payload := Payload(pkt, raw);
    CountOk(st.current, pkt, payload, w.entropy(payload), Reference(pkt, st.lastCc));
    var r := Take(cfg, w, st, pkt, raw);
    ImagesFrame(cfg, st.counters, r.counters, st.out.images);
  }

  lemma LearnSafe(cfg: Config, st: Rec, pkt: TsPacket, raw: Raw)
    requires Parse(raw) == Some(pkt) && Safe(cfg, st)
    ensures Safe(cfg, Learn(cfg, st, pkt, raw))
  {
    hide Select, Observe;
    SelectSafe(cfg, st.(psi := Observe(st.psi, pkt, raw)));
  }

  lemma CountedSafe(cfg: Config, st: Rec)
    requires Safe(cfg, st)
    ensures Safe(cfg, CountReceived(st))
  {
    hide TotalSize, Rising, ImagesOk;
    ImagesFrame(cfg, st.counters, CountReceived(st).counters, st.out.images);
  }

  lemma ReceiveSafe(cfg: Config, w: World, st: Rec, pkt: TsPacket, raw: Raw)
    requires Safe(cfg, st) && Layout(pkt)
    ensures Safe(cfg, Receive(cfg, w, st, pkt, raw).0)
  {
    hide Safe, FinishPes, Take;
    FinishPesSafe(cfg, w, st, false);
    var (st1, ok) := if pkt.payloadUnitStart then FinishPes(cfg, w, st, false) else (st, true);
    TakeSafe(cfg, w, st1, pkt, raw);
  }

  /** One packet, whatever it holds and whatever the callbacks answer, keeps the engine safe. */
  lemma PacketSafe(cfg: Config, w: World, st: Rec, raw: Raw)
    requires Safe(cfg, st)
    ensures Safe(cfg, Packet(cfg, w, st, raw).0)
  {
    hide Parse, Safe, Receive, Learn, CountReceived;
    CountedSafe(cfg, st);
    if Parse(raw).Some? {
      var pkt := Parse(raw).value;
      LearnSafe(cfg, CountReceived(st), pkt, raw);
      ReceiveSafe(cfg, w, Learn(cfg, CountReceived(st), pkt, raw), pkt, raw);
    }
  }
}
