// The image-recovery engine as a state machine (src/recovery.c). Scores are reals. The decoder, the
// callbacks and the entropy of a payload are parameters; what the callbacks are shown is recorded.
module RecoverySpec {
  import opened Bytes
  import opened TsPackets
  import opened PsiTables
  import opened AnnexB
  import opened RankModels

  datatype Codec = Auto | H264 | H265

  datatype ConfigRecord = ConfigRecord(
    videoPid: int,
    codec: Codec,
    maxBytes: nat,
    maxCandidates: nat,
    vote: bool,
    decode: bool,
    analyzeOnFeed: bool,
    minQuality: real,
    model: RankModel)

  /** What `sf_recovery_create` accepts. */
  predicate ConfigValid(cfg: ConfigRecord)
  {
    && -1 <= cfg.videoPid < NULL_PID
    && 4096 <= cfg.maxBytes <= 256 * 1024 * 1024
    && 0 < cfg.maxCandidates <= MAX_CANDIDATES
    && 0.0 <= cfg.minQuality <= 1.0
    && ModelValid(cfg.model)
  }

  const MAX_CANDIDATES := 256
  const MAX_HEADER := 65536

  type Config = cfg: ConfigRecord | ConfigValid(cfg)
    witness ConfigRecord(-1, Auto, 8 * 1024 * 1024, 12, false, true, true, 0.15,
                   RankModel(seq(FEATURE_COUNT, _ => 0.0), seq(FEATURE_COUNT, _ => 0.0), seq(FEATURE_COUNT + 1, _ => 0.0), false))

  /** The surroundings: answers of the n-th callback, what the decoder makes of the n-th stream it is given,
      and the entropy of a payload. */
  datatype World = World(
    featuresOk: nat -> bool,
    candidateOk: nat -> bool,
    decode: (nat, seq<byte>, Codec) -> Option<real>,
    entropy: seq<byte> -> real)

  datatype Features = Features(index: nat, codec: Codec, values: Values, score: real)

  datatype CandidateRecord = CandidateRecord(data: seq<byte>, keyOffset: nat, keySize: nat, features: Features, emitted: nat)

  /** A candidate's key slice lies inside its data. */
  predicate KeyInside(c: CandidateRecord)
  {
    c.keyOffset + c.keySize <= |c.data|
  }

  type Candidate = c: CandidateRecord | KeyInside(c)
    witness CandidateRecord([], 0, 0, Features(0, H264, seq(FEATURE_COUNT, _ => 0.0), 0.0), 0)

  datatype Phase = WaitService | WaitHeaders | WaitKeyframe | ReadyToDecode | WaitUsableImage | ImageReady

  /** The part of the status that `update_status` derives. */
  datatype Progress = Progress(phase: Phase, percent: nat, headersFound: nat, headersRequired: nat, retainedBytes: int)

  datatype Counters = Counters(
    packetsReceived: nat,
    accessUnits: nat,
    keyframes: nat,
    decodeAttempts: nat,
    decodedImages: nat,
    frameVersion: nat,
    oversizedUnits: nat,
    bestScore: real,
    imageQuality: real)

  /** A stream handed to the candidate callback, and the version of the parameter sets in front of it. */
  datatype Shown = Shown(data: seq<byte>, features: Features, voted: bool, version: nat)

  /** An image handed to the image callback. */
  datatype Image = Image(version: nat, score: real, quality: real)

  /** What the host has seen: `calls` numbers its callbacks for ever, the lists start afresh at a reset
      (`images` and `records` also when another stream is selected). `numbers` tells of each stream shown the number of
      the callback it was shown to. */
  datatype Output = Output(calls: nat, shown: seq<Shown>, records: seq<Features>, images: seq<Image>, numbers: seq<nat>)

  type Headers = h: seq<seq<byte>> | |h| == 3 witness [[], [], []]

  datatype Rec = Rec(
    psi: Psi,
    pid: int,
    codec: Codec,
    pes: seq<byte>,
    dropping: bool,
    lastCc: int,
    current: Values,
    headers: Headers,
    headerVersion: nat,
    candidates: seq<Candidate>,
    retained: int,
    dirty: bool,
    previewSize: nat,
    counters: Counters,
    progress: Progress,
    out: Output)

  /** -DBL_MAX stands for "no image yet"; it is never compared. */
  const NO_SCORE: real := -1.0

  function ZeroCounters(): Counters
  {
    Counters(0, 0, 0, 0, 0, 0, 0, NO_SCORE, 0.0)
  }

  // ---------- Status ----------

  function Required(codec: Codec): (n: nat)
    ensures 2 <= n <= 3
  {
    if codec == H265 then 3 else 2
  }

  function Found(headers: Headers, n: nat): (r: nat)
    requires n <= 3
    ensures r <= n
    ensures r == n <==> forall i :: 0 <= i < n ==> headers[i] != []
  {
    if n == 0 then 0 else Found(headers, n - 1) + if headers[n - 1] != [] then 1 else 0
  }

  predicate HeadersComplete(codec: Codec, headers: Headers)
  {
    Found(headers, Required(codec)) == Required(codec)
  }

  /** `update_status`. */
  function Update(st: Rec): Rec
  {
    var required := Required(st.codec);
    var found := Found(st.headers, required);
    var (phase, percent) :=
      if st.counters.frameVersion > 0 then (ImageReady, 100)
      else if st.pid < 0 then (WaitService, 0)
      else if found != required then (WaitHeaders, 20 + 40 * found / required)
      else if st.candidates == [] then (WaitKeyframe, 60)
      else if st.counters.decodeAttempts == 0 then (ReadyToDecode, 80)
      else (WaitUsableImage, 90);
    st.(progress := Progress(phase, percent, found, required, st.retained + |st.pes|))
  }

  /** `clear_candidates`. */
  function Clear(st: Rec): Rec
  {
    st.(candidates := [], retained := 0, headers := [[], [], []], headerVersion := 0, pes := [], dropping := false,
        previewSize := 0, current := ZeroValues(), lastCc := -1)
  }

  /** `sf_recovery_reset`. */
  function ResetRec(cfg: Config, st: Rec): Rec
  {
    Update(Clear(st).(
      psi := InitialPsi(), counters := ZeroCounters(), pid := cfg.videoPid,
      codec := if cfg.codec == Auto then H264 else cfg.codec, dirty := false,
      out := Output(st.out.calls, [], [], [], [])))
  }

  function InitialRec(cfg: Config): Rec
  {
    ResetRec(cfg, Rec(InitialPsi(), -1, H264, [], false, -1, ZeroValues(), [[], [], []], 0, [], 0, false, 0, ZeroCounters(),
                      Progress(WaitService, 0, 0, 2, 0), Output(0, [], [], [], [])))
  }

  // ---------- Emission ----------

  /** `emit_candidate`. */
  function Emit(cfg: Config, w: World, st: Rec, data: seq<byte>, f: Features, voted: bool): (r: (Rec, bool))
    ensures r.0 == st.(counters := r.0.counters, progress := r.0.progress, out := r.0.out)
  {
    var st1 := st.(out := st.out.(calls := st.out.calls + 1, shown := st.out.shown + [Shown(data, f, voted, st.headerVersion)],
                                numbers := st.out.numbers + [st.out.calls]));
    if !w.candidateOk(st.out.calls) then (st1, false)
    else if !cfg.decode || (st.counters.frameVersion > 0 && f.score <= st.counters.bestScore) then (st1, true)
    else (Decode(cfg, w, st1, data, f), true)
  }

  /** One decoder attempt; a good enough image becomes the new best. */
  function Decode(cfg: Config, w: World, st: Rec, data: seq<byte>, f: Features): (r: Rec)
    ensures r == st.(counters := r.counters, progress := r.progress, out := r.out)
  {
    var c := st.counters.(decodeAttempts := st.counters.decodeAttempts + 1);
    var st1 := st.(out := st.out.(calls := st.out.calls + 1));
    match w.decode(st.out.calls, data, f.codec)
    case None => st1.(counters := c)
    case Some(quality) =>
      var c' := c.(decodedImages := c.decodedImages + 1);
      if quality < cfg.minQuality then st1.(counters := c') else Accept(st1.(counters := c'), f.score, quality)
  }

  /** A usable image becomes the new best and is shown. */
  function Accept(st: Rec, score: real, quality: real): (r: Rec)
    ensures r == st.(counters := r.counters, progress := r.progress, out := r.out)
  {
    var version := st.counters.frameVersion + 1;
    Update(st.(
      counters := st.counters.(frameVersion := version, bestScore := score, imageQuality := quality),
      out := st.out.(images := st.out.images + [Image(version, score, quality)])))
  }

  /** The parameter sets in front of every emitted stream. */
  function HeaderBytes(headers: Headers, n: nat): seq<byte>
    requires n <= 3
  {
    if n == 0 then [] else HeaderBytes(headers, n - 1) + headers[n - 1]
  }

  // ---------- Ranking ----------

  /** Candidate numbers by falling score; among equals the earlier candidate goes first. */
  function Insert(scores: seq<real>, order: seq<nat>, i: nat): (r: seq<nat>)
    requires i < |scores| && forall k :: 0 <= k < |order| ==> order[k] < |scores|
    ensures |r| == |order| + 1
    ensures forall k :: 0 <= k < |r| ==> r[k] < |scores|
  {
    if order != [] && scores[order[|order| - 1]] < scores[i]
    then Insert(scores, order[..|order| - 1], i) + [order[|order| - 1]]
    else order + [i]
  }

  function Order(scores: seq<real>, n: nat): (r: seq<nat>)
    requires n <= |scores|
    ensures |r| == n
    ensures forall k :: 0 <= k < |r| ==> r[k] < |scores|
  {
    if n == 0 then [] else Insert(scores, Order(scores, n - 1), n - 1)
  }

  function Scores(candidates: seq<Candidate>): (r: seq<real>)
    ensures |r| == |candidates|
  {
    seq(|candidates|, i requires 0 <= i < |candidates| => candidates[i].features.score)
  }

  function Ranked(candidates: seq<Candidate>): (r: seq<nat>)
    ensures |r| == |candidates|
    ensures forall k :: 0 <= k < |r| ==> r[k] < |candidates|
  {
    Order(Scores(candidates), |candidates|)
  }

  /** The emission loop of `analyze`: from place `i` of the order on, `emitted` streams having gone out. */
  function EmitRanked(cfg: Config, w: World, st: Rec, order: seq<nat>, i: nat, emitted: nat): (r: (Rec, bool))
    requires forall k :: 0 <= k < |order| ==> order[k] < |st.candidates|
    ensures |r.0.candidates| == |st.candidates|
    decreases |order| - i
  {
    if i >= |order| || emitted >= cfg.maxCandidates then (st, true) else
    var c := st.candidates[order[i]];
    if c.emitted == st.headerVersion then EmitRanked(cfg, w, st, order, i + 1, emitted) else
    var (st1, ok) := Emit(cfg, w, st, HeaderBytes(st.headers, Required(st.codec)) + c.data, c.features, false);
    if !ok then (st1, false) else
    EmitRanked(cfg, w, st1.(candidates := st.candidates[order[i] := c.(emitted := st.headerVersion)]), order, i + 1, emitted + 1)
  }

  // ---------- Voting ----------

  /** Key slices of about the same number of packets vote together. */
  function Bucket(c: Candidate): nat
  {
    (c.keySize + 93) / 188
  }

  /** The members of a bucket, best first. */
  function Members(candidates: seq<Candidate>, order: seq<nat>, bucket: nat): (r: seq<Candidate>)
    requires forall k :: 0 <= k < |order| ==> order[k] < |candidates|
    ensures forall k :: 0 <= k < |r| ==> Bucket(r[k]) == bucket && r[k] in candidates
  {
    if order == [] then [] else
    (if Bucket(candidates[order[0]]) == bucket then [candidates[order[0]]] else []) + Members(candidates, order[1..], bucket)
  }

  function Max(a: nat, b: nat): nat
  {
    if a > b then a else b
  }

  function LongestKey(members: seq<Candidate>): nat
  {
    if members == [] then 0 else Max(members[0].keySize, LongestKey(members[1..]))
  }

  function VotingScore(cfg: Config, c: Candidate): real
  {
    if cfg.model.enabled then c.features.score * 1024.0 else c.features.score
  }

  function Raised(base: real, confidence: real): real
  {
    (base + 4096.0) * (0.5 + confidence)
  }

  /** The say of a candidate: at least one, rising with score and confidence. */
  function Weight(cfg: Config, c: Candidate): (r: real)
    ensures r >= 1.0
  {
    var floor := Raised(VotingScore(cfg, c), c.features.values[PACKET_CONFIDENCE]).Floor as real;
    if floor < 1.0 then 1.0 else floor
  }

  /** The byte a candidate shows at a place of its key slice. */
  function Ballot(c: Candidate, pos: nat): byte
    requires pos < c.keySize
  {
    c.data[c.keyOffset + pos]
  }

  /** Total weight behind a byte value at a place. */
  function Tally(cfg: Config, members: seq<Candidate>, pos: nat, value: byte): (r: real)
    ensures r >= 0.0
  {
    if members == [] then 0.0 else
    var last := members[|members| - 1];
    Tally(cfg, members[..|members| - 1], pos, value)
    + if pos < last.keySize && Ballot(last, pos) == value then Weight(cfg, last) else 0.0
  }

  /** The winner among the bytes shown by the first `n` members: the first one whose tally nobody before exceeds. */
  function Leader(cfg: Config, members: seq<Candidate>, pos: nat, n: nat): Option<byte>
    requires n <= |members|
  {
    if n == 0 then None else
    var before := Leader(cfg, members, pos, n - 1);
    var c := members[n - 1];
    if pos < c.keySize && (before.None? || Tally(cfg, members, pos, Ballot(c, pos)) > Tally(cfg, members, pos, before.value))
    then Some(Ballot(c, pos))
    else before
  }

  function VotedByte(cfg: Config, members: seq<Candidate>, pos: nat): byte
  {
    var leader := Leader(cfg, members, pos, |members|);
    if leader.Some? then leader.value else 0
  }

  function VotedSlice(cfg: Config, members: seq<Candidate>): (r: seq<byte>)
    ensures |r| == LongestKey(members)
  {
    seq(LongestKey(members), pos requires 0 <= pos < LongestKey(members) => VotedByte(cfg, members, pos))
  }

  /** Whether a candidate ranked before place `i` is in the bucket. */
  predicate BucketSeen(candidates: seq<Candidate>, order: seq<nat>, i: nat, bucket: nat)
    requires i <= |order| && forall k :: 0 <= k < |order| ==> order[k] < |candidates|
  {
    exists k :: 0 <= k < i && Bucket(candidates[order[k]]) == bucket
  }

  /** One turn of the voting loop: a bucket not seen before votes if it has two members. */
  function VoteTurn(cfg: Config, w: World, st: Rec, order: seq<nat>, i: nat): (r: (Rec, bool))
    requires i < |order| && forall k :: 0 <= k < |order| ==> order[k] < |st.candidates|
    ensures r.0.candidates == st.candidates
  {
    var c := st.candidates[order[i]];
    var members := Members(st.candidates, order[i..], Bucket(c));
    if BucketSeen(st.candidates, order, i, Bucket(c)) || |members| < 2 then (st, true) else
    Emit(cfg, w, st, HeaderBytes(st.headers, Required(st.codec)) + VotedSlice(cfg, members), c.features, true)
  }

  /** The voting loop of `analyze`, from place `i` on. */
  function Vote(cfg: Config, w: World, st: Rec, order: seq<nat>, i: nat): (Rec, bool)
    requires i <= |order| && forall k :: 0 <= k < |order| ==> order[k] < |st.candidates|
    decreases |order| - i
  {
    if i == |order| then (st, true) else
    var (st1, ok) := VoteTurn(cfg, w, st, order, i);
    if !ok then (st1, false) else Vote(cfg, w, st1, order, i + 1)
  }

  /** `analyze`: rank, emit what this header version has not seen yet, vote; nothing without all headers. */
  function Analyze(cfg: Config, w: World, st: Rec): (Rec, bool)
  {
    if !HeadersComplete(st.codec, st.headers) then (st, true) else
    var order := Ranked(st.candidates);
    var (st1, ok1) := EmitRanked(cfg, w, st, order, 0, 0);
    if !ok1 then (st1, false) else
    var (st2, ok2) := if cfg.vote && st1.dirty then Vote(cfg, w, st1, order, 0) else (st1, true);
    if !ok2 then (st2, false) else (st2.(dirty := false), true)
  }

  // ---------- One access unit ----------

  /** The elementary stream of a PES: what follows its header, nothing when the header overruns it. */
  function Elementary(pes: seq<byte>): (r: seq<byte>)
    ensures |r| <= |pes|
  {
    if |pes| >= 9 && pes[0] == 0 && pes[1] == 0 && pes[2] == 1
    then if 9 + N(pes[8]) <= |pes| then pes[9 + N(pes[8])..] else []
    else pes
  }

  /** What the split loop has gathered from the units so far. */
  datatype Scan = Scan(
    headers: Headers,
    headerVersion: nat,
    dirty: bool,
    values: Values,
    data: seq<byte>,
    keyOffset: nat,
    keySize: nat)

  /** A unit long enough for its codec's NAL header. */
  predicate HasNalHeader(codec: Codec, u: Unit)
  {
    u.at + u.prefix < u.end && (codec != H265 || u.at + u.prefix + 1 < u.end)
  }

  function NalType(codec: Codec, first: byte): nat
  {
    if codec == H265 then N(first) / 2 % 64 else N(first) % 32
  }

  /** Which parameter set a NAL type is: VPS, SPS, PPS for H.265, SPS, PPS for H.264. */
  function HeaderSlot(codec: Codec, t: nat): Option<nat>
    ensures HeaderSlot(codec, t).Some? ==> HeaderSlot(codec, t).value < Required(codec)
  {
    if codec == H265 then (if 32 <= t < 35 then Some(t - 32) else None)
    else if 7 <= t < 9 then Some(t - 7) else None
  }

  predicate IsKey(codec: Codec, t: nat)
  {
    if codec == H265 then 19 <= t <= 21 else t == 5
  }

  predicate IsSlice(codec: Codec, t: nat)
  {
    if codec == H265 then t < 32 else t == 1 || t == 5
  }

  /** Units a candidate keeps: keyframe slices, delimiters and supplemental information. */
  predicate IsKept(codec: Codec, t: nat)
  {
    IsKey(codec, t) || (if codec == H265 then t == 35 || t == 39 || t == 40 else t == 6 || t == 9)
  }

  function ScanHeader(scan: Scan, slot: nat, unit: seq<byte>): Scan
    requires slot < 3
  {
    if |unit| > |scan.headers[slot]| && |unit| <= MAX_HEADER
    then scan.(headers := scan.headers[slot := unit], headerVersion := scan.headerVersion + 1, dirty := true)
    else scan
  }

  function ScanSlice(scan: Scan, codec: Codec, t: nat, size: nat): Scan
  {
    var sliced := if IsSlice(codec, t) then scan.(values := Plus(scan.values, SLICE_BYTES, size as real)) else scan;
    if !IsKey(codec, t) then sliced else
    var keyed := sliced.(values := sliced.values[HAS_IDR := 1.0]);
    if scan.keySize > 0 then keyed
    else keyed.(keyOffset := |scan.data|, keySize := size, values := keyed.values[IDR_BYTES := size as real])
  }

  predicate ScanInside(scan: Scan)
  {
    scan.keyOffset + scan.keySize <= |scan.data|
  }

  function ScanUnit(codec: Codec, scan: Scan, data: seq<byte>, u: Unit): (r: Scan)
    requires u.at + u.prefix < |data| && u.at <= u.end <= |data|
    ensures ScanInside(scan) ==> ScanInside(r)
  {
    if !HasNalHeader(codec, u) then scan else
    var t := NalType(codec, data[u.at + u.prefix]);
    var unit := data[u.at..u.end];
    var s1 := if HeaderSlot(codec, t).Some? then ScanHeader(scan, HeaderSlot(codec, t).value, unit) else scan;
    var s2 := ScanSlice(s1, codec, t, |unit|);
    if IsKept(codec, t) then s2.(data := s2.data + unit) else s2
  }

  function ScanUnits(codec: Codec, scan: Scan, data: seq<byte>, us: seq<Unit>): (r: Scan)
    requires forall u :: u in us ==> u.at + u.prefix < |data| && u.at <= u.end <= |data|
    ensures ScanInside(scan) ==> ScanInside(r)
    decreases |us|
  {
    if us == [] then scan else ScanUnits(codec, ScanUnit(codec, scan, data, us[0]), data, us[1..])
  }

  /** Rounding towards zero. */
  function Trunc(x: real): int
  {
    if x >= 0.0 then x.Floor else -((-x).Floor)
  }

  /** The heuristic score of an access unit. */
  function HeuristicScore(v: Values): real
  {
    v[SLICE_BYTES] + Trunc((v[PACKET_CONFIDENCE] - 0.5) * v[PACKETS] * 128.0) as real
    - v[MISSING_BY_CC] * 188.0 - v[CC_ERRORS] * 64.0 - v[OUT_OF_ORDER] * 128.0 - v[BAD_PES_STARTS] * 96.0
  }

  function TotalSize(candidates: seq<Candidate>): nat
  {
    if candidates == [] then 0 else TotalSize(candidates[..|candidates| - 1]) + |candidates[|candidates| - 1].data|
  }

  /** The place of the candidate of an access unit, as far as there is one. */
  function FindIndex(candidates: seq<Candidate>, index: nat, i: nat): (r: Option<nat>)
    requires i <= |candidates|
    ensures r.Some? ==> i <= r.value < |candidates| && candidates[r.value].features.index == index
    ensures r.None? ==> forall k :: i <= k < |candidates| ==> candidates[k].features.index != index
    decreases |candidates| - i
  {
    if i == |candidates| then None
    else if candidates[i].features.index == index then Some(i)
    else FindIndex(candidates, index, i + 1)
  }

  /** `while (count && (count == 256 || retained + size > max_bytes / 2)) evict_oldest` */
  function Evict(candidates: seq<Candidate>, retained: int, size: nat, budget: nat): (r: (seq<Candidate>, int))
    ensures |r.0| <= |candidates|
    decreases |candidates|
  {
    if candidates != [] && (|candidates| == MAX_CANDIDATES || retained + size > budget)
    then Evict(candidates[1..], retained - |candidates[0].data|, size, budget)
    else (candidates, retained)
  }

  /** The scan of the PES gathered so far, whole or not. */
  function ScanPes(st: Rec): (r: Scan)
    requires st.current[PACKETS] != 0.0
    ensures ScanInside(r)
  {
    var es := Elementary(st.pes);
    var averaged := st.current[PACKET_CONFIDENCE := st.current[PACKET_CONFIDENCE] / st.current[PACKETS]];
    ScanUnits(st.codec, Scan(st.headers, st.headerVersion, st.dirty, averaged, [], 0, 0), es, Split(es))
  }

  /** The store without the candidate of an access unit, and the bytes that frees. */
  function Others(candidates: seq<Candidate>, index: nat): (r: (seq<Candidate>, nat))
  {
    match FindIndex(candidates, index, 0)
    case None => (candidates, 0)
    case Some(i) => (candidates[..i] + candidates[i + 1..], |candidates[i].data|)
  }

  /** Takes a candidate in: it replaces the one of the same access unit, and old ones make room for it. */
  function Keep(cfg: Config, st: Rec, c: Candidate): Rec
  {
    var (others, freed) := Others(st.candidates, c.features.index);
    var (kept, retained) := Evict(others, st.retained - freed, |c.data|, cfg.maxBytes / 2);
    st.(candidates := kept + [c], retained := retained + |c.data|, dirty := true,
        counters := st.counters.(keyframes := st.counters.keyframes
                                              + if FindIndex(st.candidates, c.features.index, 0).Some? then 0 else 1))
  }

  /** The state once the headers of the unit are cached and the unit is counted. */
  function Scanned(st: Rec, scan: Scan, partial: bool): Rec
  {
    st.(headers := scan.headers, headerVersion := scan.headerVersion, dirty := scan.dirty,
        counters := st.counters.(accessUnits := st.counters.accessUnits + if partial then 0 else 1))
  }

  function Record(st: Rec, f: Features): Rec
  {
    st.(out := st.out.(calls := st.out.calls + 1, records := st.out.records + [f]))
  }

  function StartUnit(st: Rec): Rec
  {
    st.(current := ZeroValues(), pes := [], dropping := false, previewSize := 0)
  }

  /** The features of the unit, with its heuristic score. */
  function UnitFeatures(st: Rec, scan: Scan): Features
  {
    Features(st.counters.accessUnits, st.codec, scan.values, HeuristicScore(scan.values))
  }

  /** The keyframe of the unit, if it has one and is whole, enters the store under its rank score. */
  function Store(cfg: Config, st: Rec, scan: Scan, f: Features): Rec
    requires ScanInside(scan)
  {
    if f.values[HAS_IDR] == 0.0 || st.dropping then st else
    var ranked := f.(score := RankScore(cfg.model, f.values, f.score));
    Keep(cfg, st, CandidateRecord(scan.data, scan.keyOffset, scan.keySize, ranked, 0))
  }

  /** `finish_pes`; `partial` is a preview of a PES still growing. */
  function FinishPes(cfg: Config, w: World, st: Rec, partial: bool): (Rec, bool)
  {
    if st.current[PACKETS] == 0.0 then (st, true) else
    var scan := ScanPes(st);
    var f := UnitFeatures(st, scan);
    var st1 := Scanned(st, scan, partial);
    var st2 := if partial then st1 else Record(st1, f);
    if !partial && !w.featuresOk(st1.out.calls) then (st2, false) else
    var st3 := Store(cfg, st2, scan, f);
    var st4 := if partial then st3 else StartUnit(st3);
    if cfg.analyzeOnFeed then Analyze(cfg, w, st4) else (st4, true)
  }

  // ---------- One packet ----------

  function CodecOf(streamType: byte): Codec
  {
    if streamType == 0x24 then H265 else if streamType == 0x1b then H264 else Auto
  }

  predicate Eligible(cfg: Config, s: Stream)
  {
    && CodecOf(s.streamType) != Auto
    && (cfg.videoPid < 0 || cfg.videoPid == s.pid)
    && (cfg.codec == Auto || cfg.codec == CodecOf(s.streamType))
  }

  /** The first listed stream the configuration allows. */
  function Choose(cfg: Config, video: seq<Stream>, i: nat): (r: Option<Stream>)
    requires i <= |video|
    decreases |video| - i
  {
    if i == |video| then None else if Eligible(cfg, video[i]) then Some(video[i]) else Choose(cfg, video, i + 1)
  }

  /** Another stream: everything learned about the old one goes. */
  function Switch(st: Rec, pid: nat, codec: Codec): Rec
  {
    Clear(st).(pid := pid, codec := codec,
               counters := st.counters.(frameVersion := 0, bestScore := NO_SCORE, decodeAttempts := 0, imageQuality := 0.0),
               out := st.out.(images := [], records := []))
  }

  function Select(cfg: Config, st: Rec): Rec
  {
    match Choose(cfg, st.psi.video, 0)
    case None => st
    case Some(s) =>
      if st.pid != s.pid || st.codec != CodecOf(s.streamType) then Switch(st, s.pid, CodecOf(s.streamType)) else st
  }

  /** The counter a packet is held against: none after a discontinuity. */
  function Reference(pkt: TsPacket, lastCc: int): int
  {
    if pkt.discontinuityIndicator then -1 else lastCc
  }

  predicate InOrder(pkt: TsPacket, last: int)
  {
    last < 0 || pkt.continuityCounter == (last + 1) % 16
  }

  /** Packets missing in front of this one, as the counter tells. */
  function Delta(pkt: TsPacket, last: int): nat
  {
    (pkt.continuityCounter - last - 1) % 16
  }

  predicate StartsPes(payload: seq<byte>)
  {
    |payload| >= 3 && payload[0] == 0 && payload[1] == 0 && payload[2] == 1
  }

  function MinReal(a: real, b: real): real
  {
    if a < b then a else b
  }

  function EntropySay(entropy: real): real
  {
    if entropy < 1.0 then -0.20 else if entropy > 7.85 then -0.10 else 0.08
  }

  function StartSay(pkt: TsPacket, payload: seq<byte>): real
  {
    if !pkt.payloadUnitStart then 0.0 else if StartsPes(payload) then 0.16 else -0.30
  }

  function CcSay(pkt: TsPacket, last: int): real
  {
    if InOrder(pkt, last) then 0.12
    else if 1 <= Delta(pkt, last) <= 8 then -MinReal(0.55, 0.12 * Delta(pkt, last) as real)
    else if pkt.continuityCounter == last then -0.25
    else -0.35
  }

  /** The confidence put into one packet, before it is cut to 0..1. */
  function Confidence(pkt: TsPacket, payload: seq<byte>, entropy: real, last: int): real
  {
    0.70
    - (if pkt.transportError then 0.70 else 0.0)
    - (if pkt.scrambling != 0 then 0.45 else 0.0)
    + EntropySay(entropy) + StartSay(pkt, payload) + CcSay(pkt, last)
  }

  function Clamp(x: real): real
  {
    if x < 0.0 then 0.0 else if x > 1.0 then 1.0 else x
  }

  /** Continuity evidence of one packet. */
  function CountCc(v: Values, pkt: TsPacket, last: int): Values
  {
    if InOrder(pkt, last) then v else
    var counted := Plus(v, CC_ERRORS, 1.0);
    if 1 <= Delta(pkt, last) <= 8 then Plus(counted, MISSING_BY_CC, Delta(pkt, last) as real)
    else if pkt.continuityCounter == last then counted
    else Plus(counted, OUT_OF_ORDER, 1.0)
  }

  function CountEntropy(v: Values, entropy: real): Values
  {
    if entropy < 1.0 then Plus(v, LOW_ENTROPY, 1.0) else if entropy > 7.85 then Plus(v, HIGH_ENTROPY, 1.0) else v
  }

  function CountStart(v: Values, pkt: TsPacket, payload: seq<byte>): Values
  {
    if pkt.payloadUnitStart && !StartsPes(payload) then Plus(v, BAD_PES_STARTS, 1.0) else v
  }

  /** Evidence of one packet, all of it. */
  function CountPacket(v: Values, pkt: TsPacket, payload: seq<byte>, entropy: real, last: int): Values
  {
    var counted := CountCc(CountStart(CountEntropy(v, entropy), pkt, payload), pkt, last);
    Plus(Plus(counted, PACKET_CONFIDENCE, Clamp(Confidence(pkt, payload, entropy, last))), PACKETS, 1.0)
  }

  /** The payload joins the PES while the budget lasts; an oversized PES is given up until the next start. */
  function Append(cfg: Config, st: Rec, payload: seq<byte>): Rec
  {
    if !st.dropping && |st.pes| + |payload| <= cfg.maxBytes / 2 then st.(pes := st.pes + payload)
    else if !st.dropping then
      st.(dropping := true, pes := [], counters := st.counters.(oversizedUnits := st.counters.oversizedUnits + 1))
    else st
  }

  function Payload(pkt: TsPacket, raw: Raw): seq<byte>
    requires Layout(pkt)
  {
    raw[pkt.payloadOffset..pkt.payloadOffset + pkt.payloadSize]
  }

  /** A payload packet of the selected stream, its access unit being open. */
  function Take(cfg: Config, w: World, st: Rec, pkt: TsPacket, raw: Raw): Rec
    requires Layout(pkt)
  {
    var payload := Payload(pkt, raw);
    var last := Reference(pkt, st.lastCc);
    Append(cfg, st.(current := CountPacket(st.current, pkt, payload, w.entropy(payload), last), lastCc := pkt.continuityCounter), payload)
  }

  /** What a packet teaches before its payload is looked at: tables, and perhaps another stream. */
  function Learn(cfg: Config, st: Rec, pkt: TsPacket, raw: Raw): Rec
    requires Parse(raw) == Some(pkt)
  {
    Select(cfg, st.(psi := Observe(st.psi, pkt, raw)))
  }

  /** A packet of any stream, tables and stream selection being settled. */
  function Receive(cfg: Config, w: World, st: Rec, pkt: TsPacket, raw: Raw): (Rec, bool)
    requires Layout(pkt)
  {
    if pkt.pid != st.pid || !pkt.hasPayload then (st, true) else
    var (st1, ok) := if pkt.payloadUnitStart then FinishPes(cfg, w, st, false) else (st, true);
    if ok then (Take(cfg, w, st1, pkt, raw), true) else (st1, false)
  }

  function CountReceived(st: Rec): Rec
  {
    st.(counters := st.counters.(packetsReceived := st.counters.packetsReceived + 1))
  }

  /** `packet`. */
  function Packet(cfg: Config, w: World, st: Rec, raw: Raw): (Rec, bool)
  {
    match Parse(raw)
    case None => (CountReceived(st), true)
    case Some(pkt) => Receive(cfg, w, Learn(cfg, CountReceived(st), pkt, raw), pkt, raw)
  }
}
