// Which streams are decoded and which images come of them (src/recovery.c:127-140, 141-209, 211-219, 336-355).
module RecoveryImages {
  import opened Bytes
  import opened TsPackets
  import opened PsiTables
  import opened AnnexB
  import opened RankModels
  import opened Framing
  import opened RecoverySpec
  import opened RecoveryInvariants
  import opened RecoveryRuns
  import opened RecoveryMarks
  import opened RecoveryShowings

  // ---------- What should come of the streams shown ----------

  /** The images so far, how often the decoder was asked, and how often it had an answer. */
  datatype Gallery = Gallery(images: seq<Image>, attempts: nat, decoded: nat)

  /** The host accepts the stream, decoding is on, and there is no image yet or only ones of lower score. */
  predicate Asked(cfg: Config, w: World, g: Gallery, s: Shown, number: nat)
  {
    cfg.decode && w.candidateOk(number) && (g.images == [] || s.features.score > g.images[|g.images| - 1].score)
  }

  /** The decoder's answer about exactly the stream that callback `number` was shown. */
  function Answer(w: World, s: Shown, number: nat): Option<real>
  {
    w.decode(number + 1, s.data, s.features.codec)
  }

  function Good(cfg: Config, answer: Option<real>): bool
  {
    answer.Some? && answer.value >= cfg.minQuality
  }

  /** One more stream shown. */
  function Visit(cfg: Config, w: World, g: Gallery, s: Shown, number: nat): Gallery
  {
    if !Asked(cfg, w, g, s, number) then g else
    var answer := Answer(w, s, number);
    Gallery(
      g.images + if Good(cfg, answer) then [Image(|g.images| + 1, s.features.score, answer.value)] else [],
      g.attempts + 1,
      g.decoded + if answer.Some? then 1 else 0)
  }

  /** The streams from place `from` on, one after the other. */
  function Tour(cfg: Config, w: World, g: Gallery, shown: seq<Shown>, numbers: seq<nat>, from: nat): Gallery
    requires |numbers| == |shown|
  {
    if |shown| <= from then g else
    var last := |shown| - 1;
    Visit(cfg, w, Tour(cfg, w, g, shown[..last], numbers[..last], from), shown[last], numbers[last])
  }

  lemma TourAppend(cfg: Config, w: World, g: Gallery, shown: seq<Shown>, numbers: seq<nat>, from: nat, s: Shown, number: nat)
    requires |numbers| == |shown| >= from
    ensures Tour(cfg, w, g, shown + [s], numbers + [number], from) == Visit(cfg, w, Tour(cfg, w, g, shown, numbers, from), s, number)
  {
    hide Visit;
    assert (shown + [s])[..|shown|] == shown && (numbers + [number])[..|numbers|] == numbers;
  }

  // ---------- What comes of them ----------

  function GalleryOf(st: Rec): Gallery
  {
    Gallery(st.out.images, st.counters.decodeAttempts, st.counters.decodedImages)
  }

  /** The state agrees with its images. */
  predicate Agrees(cfg: Config, st: Rec)
  {
    ImagesOk(cfg, st.counters, st.out.images) && |st.out.numbers| == |st.out.shown|
  }

  /** Between two moments exactly those streams were decoded and exactly those images were made. */
  predicate Pictured(cfg: Config, w: World, a: Rec, b: Rec)
  {
    && Agrees(cfg, a) && Agrees(cfg, b)
    && a.out.shown <= b.out.shown && a.out.numbers <= b.out.numbers
    && GalleryOf(b) == Tour(cfg, w, GalleryOf(a), b.out.shown, b.out.numbers, |a.out.shown|)
  }

  /** One stream handed to the host: the decoder is asked exactly when it should be, about exactly these bytes, and an
      image is made exactly when the answer is good enough. */
  lemma EmitPictures(cfg: Config, w: World, st: Rec, data: seq<byte>, f: Features, voted: bool)
    requires Agrees(cfg, st)
    ensures var (r, ok) := Emit(cfg, w, st, data, f, voted);
            var n := st.out.calls;
            var asked := cfg.decode && w.candidateOk(n) && (st.out.images == [] || f.score > st.out.images[|st.out.images| - 1].score);
            var answer := w.decode(n + 1, data, f.codec);
            && ok == w.candidateOk(n)
            && r.counters.decodeAttempts == st.counters.decodeAttempts + (if asked then 1 else 0)
            && r.counters.decodedImages == st.counters.decodedImages + (if asked && answer.Some? then 1 else 0)
            && r.out.images == st.out.images + (if asked && answer.Some? && answer.value >= cfg.minQuality
                                                then [Image(st.counters.frameVersion + 1, f.score, answer.value)] else [])
            && r.out.numbers == st.out.numbers + [n]
            && Agrees(cfg, r)
  {
    EmitOk(cfg, w, st, data, f, voted);
    hide ImagesOk;
    LastImage(cfg, st);
  }

  lemma LastImage(cfg: Config, st: Rec)
    requires Agrees(cfg, st)
    ensures |st.out.images| == st.counters.frameVersion
    ensures st.out.images != [] ==> st.out.images[|st.out.images| - 1].score == st.counters.bestScore
  {
  }

  lemma EmitPictured(cfg: Config, w: World, st: Rec, data: seq<byte>, f: Features, voted: bool)
    requires Agrees(cfg, st)
    ensures Pictured(cfg, w, st, Emit(cfg, w, st, data, f, voted).0)
  {
    EmitOk(cfg, w, st, data, f, voted);
    EmitPictures(cfg, w, st, data, f, voted);
    LastImage(cfg, st);
    hide Emit, Agrees, Tour;
    TourAppend(cfg, w, GalleryOf(st), st.out.shown, st.out.numbers, |st.out.shown|, Shown(data, f, voted, st.headerVersion), st.out.calls);
    NoTour(cfg, w, GalleryOf(st), st.out.shown, st.out.numbers);
    assert st.out.images + [] == st.out.images;
  }

  lemma NoTour(cfg: Config, w: World, g: Gallery, shown: seq<Shown>, numbers: seq<nat>)
    requires |numbers| == |shown|
    ensures Tour(cfg, w, g, shown, numbers, |shown|) == g
  {
  }

  /** A tour may be interrupted anywhere. */
  lemma {:induction false} TourOn(cfg: Config, w: World, g: Gallery, shown: seq<Shown>, numbers: seq<nat>, from: nat, mid: nat)
    requires |numbers| == |shown| && from <= mid <= |shown|
    ensures Tour(cfg, w, Tour(cfg, w, g, shown[..mid], numbers[..mid], from), shown, numbers, mid) == Tour(cfg, w, g, shown, numbers, from)
  {
    hide Visit;
    if mid == |shown| {
      assert shown[..mid] == shown && numbers[..mid] == numbers;
    } else {
      var last := |shown| - 1;
      TourOn(cfg, w, g, shown[..last], numbers[..last], from, mid);
      assert shown[..last][..mid] == shown[..mid] && numbers[..last][..mid] == numbers[..mid];
    }
  }

  lemma PicturedTrans(cfg: Config, w: World, a: Rec, b: Rec, c: Rec)
    requires Pictured(cfg, w, a, b) && Pictured(cfg, w, b, c)
    ensures Pictured(cfg, w, a, c)
  {
    hide Agrees, Tour;
    AgreesSizes(cfg, a);
    AgreesSizes(cfg, b);
    AgreesSizes(cfg, c);
    var mid := |b.out.shown|;
    assert c.out.shown[..mid] == b.out.shown && c.out.numbers[..mid] == b.out.numbers;
    TourOn(cfg, w, GalleryOf(a), c.out.shown, c.out.numbers, |a.out.shown|, mid);
  }

  lemma AgreesSizes(cfg: Config, st: Rec)
    requires Agrees(cfg, st)
    ensures |st.out.numbers| == |st.out.shown|
  {
  }

  lemma PicturedSelf(cfg: Config, w: World, st: Rec)
    requires Agrees(cfg, st)
    ensures Pictured(cfg, w, st, st)
  {
    hide ImagesOk;
  }

  /** Steps that touch neither output nor images. */
  predicate SameOutput(a: Rec, b: Rec)
  {
    && b.out.shown == a.out.shown && b.out.numbers == a.out.numbers && b.out.images == a.out.images
    && b.counters.decodeAttempts == a.counters.decodeAttempts && b.counters.decodedImages == a.counters.decodedImages
    && b.counters.frameVersion == a.counters.frameVersion && b.counters.bestScore == a.counters.bestScore
  }

  lemma SamePictured(cfg: Config, w: World, a: Rec, b: Rec)
    requires Agrees(cfg, a) && SameOutput(a, b)
    ensures Pictured(cfg, w, a, b)
  {
    NoTour(cfg, w, GalleryOf(a), a.out.shown, a.out.numbers);
    ImagesFrame(cfg, a.counters, b.counters, a.out.images);
    hide ImagesOk, Tour;
  }

  // ---------- Analysis ----------

  lemma {:induction false} EmitRankedPictured(cfg: Config, w: World, st: Rec, order: seq<nat>, i: nat, emitted: nat)
    requires Agrees(cfg, st) && forall k :: 0 <= k < |order| ==> order[k] < |st.candidates|
    ensures Pictured(cfg, w, st, EmitRanked(cfg, w, st, order, i, emitted).0)
    decreases |order| - i
  {
    hide Emit, HeaderBytes, Pictured, Agrees;
    PicturedSelf(cfg, w, st);
    if i < |order| && emitted < cfg.maxCandidates {
      var c := st.candidates[order[i]];
      if c.emitted == st.headerVersion {
        EmitRankedPictured(cfg, w, st, order, i + 1, emitted);
      } else {
        var data := HeaderBytes(st.headers, Required(st.codec)) + c.data;
        EmitPictured(cfg, w, st, data, c.features, false);
        var (st1, ok) := Emit(cfg, w, st, data, c.features, false);
        if ok {
          var st2 := st1.(candidates := st.candidates[order[i] := c.(emitted := st.headerVersion)]);
          PicturedAgrees(cfg, w, st, st1);
          SamePictured(cfg, w, st1, st2);
          PicturedTrans(cfg, w, st, st1, st2);
          PicturedAgrees(cfg, w, st, st2);
          EmitRankedPictured(cfg, w, st2, order, i + 1, emitted + 1);
          PicturedTrans(cfg, w, st, st2, EmitRanked(cfg, w, st2, order, i + 1, emitted + 1).0);
        }
      }
    }
  }

  lemma PicturedAgrees(cfg: Config, w: World, a: Rec, b: Rec)
    requires Pictured(cfg, w, a, b)
    ensures Agrees(cfg, b)
  {
  }

  lemma {:induction false} VotePictured(cfg: Config, w: World, st: Rec, order: seq<nat>, i: nat)
    requires Agrees(cfg, st) && i <= |order| && forall k :: 0 <= k < |order| ==> order[k] < |st.candidates|
    ensures Pictured(cfg, w, st, Vote(cfg, w, st, order, i).0)
    decreases |order| - i
  {
    hide Emit, HeaderBytes, Members, VotedSlice, BucketSeen, Bucket, Pictured, Agrees, ImagesOk;
    PicturedSelf(cfg, w, st);
    if i < |order| {
      var c := st.candidates[order[i]];
      var members := Members(st.candidates, order[i..], Bucket(c));
      if BucketSeen(st.candidates, order, i, Bucket(c)) || |members| < 2 {
        VotePictured(cfg, w, st, order, i + 1);
      } else {
        var data := HeaderBytes(st.headers, Required(st.codec)) + VotedSlice(cfg, members);
        EmitOk(cfg, w, st, data, c.features, true);
        EmitPictured(cfg, w, st, data, c.features, true);
        var (st1, ok) := Emit(cfg, w, st, data, c.features, true);
        if ok {
          PicturedAgrees(cfg, w, st, st1);
          VotePictured(cfg, w, st1, order, i + 1);
          PicturedTrans(cfg, w, st, st1, Vote(cfg, w, st1, order, i + 1).0);
        }
      }
    }
  }

  /** A whole analysis decodes exactly what it should of the streams it shows, voted ones included. */
  lemma AnalyzePictured(cfg: Config, w: World, st: Rec)
    requires Agrees(cfg, st)
    ensures Pictured(cfg, w, st, Analyze(cfg, w, st).0)
  {
    hide EmitRanked, Vote, Ranked, HeadersComplete, Pictured, Agrees;
    PicturedSelf(cfg, w, st);
    if HeadersComplete(st.codec, st.headers) {
      var order := Ranked(st.candidates);
      EmitRankedPictured(cfg, w, st, order, 0, 0);
      var (st1, ok1) := EmitRanked(cfg, w, st, order, 0, 0);
      PicturedAgrees(cfg, w, st, st1);
      if ok1 {
        PicturedSelf(cfg, w, st1);
        VotePictured(cfg, w, st1, order, 0);
        var (st2, ok2) := if cfg.vote && st1.dirty then Vote(cfg, w, st1, order, 0) else (st1, true);
        PicturedTrans(cfg, w, st, st1, st2);
        PicturedAgrees(cfg, w, st, st2);
        SamePictured(cfg, w, st2, st2.(dirty := false));
        PicturedTrans(cfg, w, st, st2, st2.(dirty := false));
      }
    }
  }

  // ---------- Units, packets, calls ----------

  lemma StoreSameOutput(cfg: Config, st: Rec, scan: Scan, f: Features)
    requires ScanInside(scan)
    ensures SameOutput(st, Store(cfg, st, scan, f))
  {
    hide Evict, FindIndex, Others, RankScore;
  }

  lemma FinishPictured(cfg: Config, w: World, st: Rec, partial: bool)
    requires Agrees(cfg, st)
    ensures Pictured(cfg, w, st, FinishPes(cfg, w, st, partial).0)
  {
    hide ScanPes, Store, Analyze, UnitFeatures, Pictured, Agrees;
    PicturedSelf(cfg, w, st);
    if st.current[PACKETS] != 0.0 {
      var scan := ScanPes(st);
      var f := UnitFeatures(st, scan);
      var st1 := Scanned(st, scan, partial);
      var st2 := if partial then st1 else Record(st1, f);
      SamePictured(cfg, w, st, st2);
      StoreSameOutput(cfg, st2, scan, f);
      var st3 := Store(cfg, st2, scan, f);
      var st4 := if partial then st3 else StartUnit(st3);
      SamePictured(cfg, w, st, st4);
      PicturedAgrees(cfg, w, st, st4);
      AnalyzePictured(cfg, w, st4);
      PicturedTrans(cfg, w, st, st4, Analyze(cfg, w, st4).0);
    }
  }

  lemma LearnSameOutput(cfg: Config, st: Rec, pkt: TsPacket, raw: Raw)
    requires Parse(raw) == Some(pkt) && StaysOn(cfg, st, raw)
    ensures SameOutput(st, Learn(cfg, CountReceived(st), pkt, raw))
  {
    hide Parse, Observe, Choose;
  }

  lemma TakeSameOutput(cfg: Config, w: World, st: Rec, pkt: TsPacket, raw: Raw)
    requires Layout(pkt)
    ensures SameOutput(st, Take(cfg, w, st, pkt, raw))
  {
    hide CountPacket;
  }

  lemma PacketPictured(cfg: Config, w: World, st: Rec, raw: Raw)
    requires Agrees(cfg, st) && StaysOn(cfg, st, raw)
    ensures Pictured(cfg, w, st, Packet(cfg, w, st, raw).0)
  {
    hide Parse, StaysOn, Learn, FinishPes, Take, Pictured, Agrees;
    SamePictured(cfg, w, st, CountReceived(st));
    if Parse(raw).Some? {
      var pkt := Parse(raw).value;
      var st1 := Learn(cfg, CountReceived(st), pkt, raw);
      LearnSameOutput(cfg, st, pkt, raw);
      SamePictured(cfg, w, st, st1);
      PicturedAgrees(cfg, w, st, st1);
      FinishPictured(cfg, w, st1, false);
      PicturedSelf(cfg, w, st1);
      var (st2, ok2) := if pkt.payloadUnitStart then FinishPes(cfg, w, st1, false) else (st1, true);
      PicturedTrans(cfg, w, st, st1, st2);
      PicturedAgrees(cfg, w, st, st2);
      TakeSameOutput(cfg, w, st2, pkt, raw);
      SamePictured(cfg, w, st2, Take(cfg, w, st2, pkt, raw));
      PicturedTrans(cfg, w, st, st2, Take(cfg, w, st2, pkt, raw));
    }
  }

  lemma {:induction false} FeedPictured(cfg: Config, w: World, c: Fed<Rec>, data: seq<byte>)
    requires Agrees(cfg, c.st) && FeedStays(cfg, w, c, data)
    ensures Pictured(cfg, w, c.st, FeedBytes(Step(cfg, w), c, data).st)
  {
    hide Packet, StaysOn, Pictured, Agrees;
    if data == [] {
      PicturedSelf(cfg, w, c.st);
    } else {
      var front := data[..|data| - 1];
      FeedPictured(cfg, w, c, front);
      var c1 := FeedBytes(Step(cfg, w), c, front);
      var (framer, packet) := Push(c1.framer, data[|data| - 1]);
      PicturedAgrees(cfg, w, c.st, c1.st);
      if !c1.failed && packet.Some? {
        PacketPictured(cfg, w, c1.st, packet.value);
        PicturedTrans(cfg, w, c.st, c1.st, Packet(cfg, w, c1.st, packet.value).0);
      }
    }
  }

  lemma PreviewPictured(cfg: Config, w: World, st: Rec)
    requires Agrees(cfg, st)
    ensures Pictured(cfg, w, st, Preview(cfg, w, st).0)
  {
    hide FinishPes, Analyze, Pictured, Agrees;
    var noted := st.(previewSize := |st.pes|);
    SamePictured(cfg, w, st, noted);
    PicturedAgrees(cfg, w, st, noted);
    FinishPictured(cfg, w, noted, true);
    PicturedTrans(cfg, w, st, noted, FinishPes(cfg, w, noted, true).0);
    PicturedSelf(cfg, w, st);
    var (st1, ok) := if |st.pes| != st.previewSize && !st.dropping then FinishPes(cfg, w, noted, true) else (st, true);
    PicturedAgrees(cfg, w, st, st1);
    AnalyzePictured(cfg, w, st1);
    PicturedTrans(cfg, w, st, st1, Analyze(cfg, w, st1).0);
  }

  lemma ClosePictured(cfg: Config, w: World, st: Rec)
    requires Agrees(cfg, st)
    ensures Pictured(cfg, w, st, Close(cfg, w, st).0)
  {
    hide FinishPes, Analyze, Pictured, Agrees;
    FinishPictured(cfg, w, st, false);
    var st1 := FinishPes(cfg, w, st, false).0;
    PicturedAgrees(cfg, w, st, st1);
    AnalyzePictured(cfg, w, st1);
    PicturedTrans(cfg, w, st, st1, Analyze(cfg, w, st1).0);
  }

  lemma UpdateSameOutput(st: Rec)
    ensures SameOutput(st, Update(st))
  {
  }

  lemma CallPictured(cfg: Config, w: World, c: Ctx, call: Call)
    requires Agrees(cfg, c.fed.st) && CallStays(cfg, w, c, call)
    ensures Pictured(cfg, w, c.fed.st, Apply(cfg, w, c, call).fed.st)
  {
    hide Pictured, Agrees, Update, Preview, Close, FeedStays, SameOutput;
    var st := c.fed.st;
    PicturedSelf(cfg, w, st);
    if !c.fed.failed {
      var st1 := match call
        case Feed(data) => FeedBytes(Step(cfg, w), c.fed, data).st
        case Look => Preview(cfg, w, st).0
        case Finish => Close(cfg, w, st).0
        case Reset => st;
      match call {
        case Feed(data) => FeedPictured(cfg, w, c.fed, data);
        case Look => PreviewPictured(cfg, w, st);
        case Finish => ClosePictured(cfg, w, st);
        case Reset =>
      }
      PicturedAgrees(cfg, w, st, st1);
      UpdateSameOutput(st1);
      SamePictured(cfg, w, st1, Update(st1));
      PicturedTrans(cfg, w, st, st1, Update(st1));
    }
  }

  // ---------- Runs ----------

  /** Over any stretch of a run without a reset or a change of stream, whatever is fed, looked at or finished and whatever
      the callbacks answer: of the streams shown, in order, exactly those are decoded that the host accepts while there is
      no image yet or only ones of lower score, each by its own bytes and codec; the images are exactly the good answers. */
  lemma {:induction false} RunPictures(cfg: Config, w: World, before: seq<Call>, more: seq<Call>)
    requires Stays(cfg, w, before, more)
    ensures Pictured(cfg, w, Run(cfg, w, before).fed.st, Run(cfg, w, before + more).fed.st)
  {
    hide Pictured, CallStays, Apply, Agrees;
    RunAgrees(cfg, w, before);
    var a := Run(cfg, w, before).fed.st;
    if more == [] {
      assert before + more == before;
      PicturedSelf(cfg, w, a);
    } else {
      var front, call := more[..|more| - 1], more[|more| - 1];
      RunPictures(cfg, w, before, front);
      assert (before + more)[..|before + more| - 1] == before + front;
      var b := Run(cfg, w, before + front);
      PicturedAgrees(cfg, w, a, b.fed.st);
      CallPictured(cfg, w, b, call);
      PicturedTrans(cfg, w, a, b.fed.st, Apply(cfg, w, b, call).fed.st);
    }
  }

  lemma RunAgrees(cfg: Config, w: World, calls: seq<Call>)
    ensures Agrees(cfg, Run(cfg, w, calls).fed.st)
  {
    hide TotalSize, Rising, ImagesOk;
    RunSafe(cfg, w, calls);
  }

  // ---------- What a host may count on ----------

  /** The stream would decode to a good image. */
  predicate Decodable(cfg: Config, w: World, s: Shown, number: nat)
  {
    cfg.decode && w.candidateOk(number) && Good(cfg, Answer(w, s, number))
  }

  lemma {:induction false} TourCovers(cfg: Config, w: World, g: Gallery, shown: seq<Shown>, numbers: seq<nat>, from: nat, i: nat)
    requires |numbers| == |shown| && from <= i < |shown| && Decodable(cfg, w, shown[i], numbers[i])
    ensures var images := Tour(cfg, w, g, shown, numbers, from).images;
            images != [] && images[|images| - 1].score >= shown[i].features.score
  {
    hide Answer;
    var last := |shown| - 1;
    if i < last {
      TourCovers(cfg, w, g, shown[..last], numbers[..last], from, i);
    }
  }

  /** If one of the streams shown, accepted by the host, would decode well enough, there is an image of at least its
      score, and it is the last one. */
  lemma BestIsPictured(cfg: Config, w: World, before: seq<Call>, more: seq<Call>, i: nat)
    requires Stays(cfg, w, before, more)
    requires |Run(cfg, w, before + more).fed.st.out.numbers| == |Run(cfg, w, before + more).fed.st.out.shown|
    requires |Run(cfg, w, before).fed.st.out.shown| <= i < |Run(cfg, w, before + more).fed.st.out.shown|
    requires var out := Run(cfg, w, before + more).fed.st.out; Decodable(cfg, w, out.shown[i], out.numbers[i])
    ensures var out := Run(cfg, w, before + more).fed.st.out;
            out.images != [] && out.images[|out.images| - 1].score >= out.shown[i].features.score
  {
    hide Run, Decodable, Tour, Agrees, Stays;
    RunPictures(cfg, w, before, more);
    var a, b := Run(cfg, w, before).fed.st, Run(cfg, w, before + more).fed.st;
    TourCovers(cfg, w, GalleryOf(a), b.out.shown, b.out.numbers, |a.out.shown|, i);
  }

  lemma {:induction false} TourOff(cfg: Config, w: World, g: Gallery, shown: seq<Shown>, numbers: seq<nat>, from: nat)
    requires |numbers| == |shown| && !cfg.decode
    ensures Tour(cfg, w, g, shown, numbers, from) == g
  {
    if |shown| > from {
      TourOff(cfg, w, g, shown[..|shown| - 1], numbers[..|shown| - 1], from);
    }
  }

  /** With decoding off there is no attempt and no image. */
  lemma NothingDecoded(cfg: Config, w: World, before: seq<Call>, more: seq<Call>)
    requires Stays(cfg, w, before, more) && !cfg.decode
    ensures GalleryOf(Run(cfg, w, before + more).fed.st) == GalleryOf(Run(cfg, w, before).fed.st)
  {
    hide Run, Tour, Agrees, Stays;
    RunPictures(cfg, w, before, more);
    var a, b := Run(cfg, w, before).fed.st, Run(cfg, w, before + more).fed.st;
    RunAgrees(cfg, w, before + more);
    AgreesSizes(cfg, b);
    TourOff(cfg, w, GalleryOf(a), b.out.shown, b.out.numbers, |a.out.shown|);
  }
}
