// What the host gets out of looking early and often (src/recovery.c:118-126, 211-219, 225-283).
module RecoveryLooks {
  import opened Bytes
  import opened TsPackets
  import opened PsiTables
  import opened AnnexB
  import opened RankModels
  import opened Framing
  import opened RecoverySpec
  import opened RecoveryInvariants
  import opened RecoveryRuns
  import opened RecoveryStreams
  import opened RecoveryRanking

  // ---------- Looking again ----------

  /** The open access unit has been looked at, or is given up: a further look only analyzes. */
  predicate Previewed(st: Rec)
  {
    |st.pes| == st.previewSize || st.dropping
  }

  /** What an analysis leaves of the fields that decide about previews. */
  lemma AnalyzeKeepsPes(cfg: Config, w: World, st: Rec)
    ensures var r := Analyze(cfg, w, st).0;
            r.pes == st.pes && r.previewSize == st.previewSize && r.dropping == st.dropping && r.headers == st.headers
            && r.codec == st.codec && r.headerVersion == st.headerVersion && r.current == st.current
  {
    hide Analyze, ImagesOk;
    AnalyzeOk(cfg, w, st);
  }

  lemma PartialKeepsPes(cfg: Config, w: World, st: Rec)
    ensures var r := FinishPes(cfg, w, st, true).0;
            r.pes == st.pes && r.previewSize == st.previewSize && r.dropping == st.dropping
  {
    if st.current[PACKETS] != 0.0 {
      hide ScanPes, Store, Analyze;
      var scan := ScanPes(st);
      var f := UnitFeatures(st, scan);
      var st1 := Scanned(st, scan, true);
      StoreKeepsPes(cfg, st1, scan, f);
      AnalyzeKeepsPes(cfg, w, Store(cfg, st1, scan, f));
    }
  }

  lemma StoreKeepsPes(cfg: Config, st: Rec, scan: Scan, f: Features)
    requires ScanInside(scan)
    ensures var r := Store(cfg, st, scan, f);
            r.pes == st.pes && r.previewSize == st.previewSize && r.dropping == st.dropping && r.headers == st.headers
            && r.codec == st.codec
  {
    hide Evict, FindIndex, Others;
  }

  /** One look is enough: after it the open unit counts as looked at. */
  lemma LookPreviews(cfg: Config, w: World, c: Ctx)
    requires !c.fed.failed
    ensures Previewed(AnalyzeCtx(cfg, w, c).fed.st)
  {
    hide FinishPes, Analyze, Update;
    var st := c.fed.st;
    PartialKeepsPes(cfg, w, st.(previewSize := |st.pes|));
    var (st1, ok) :=
      if |st.pes| != st.previewSize && !st.dropping then FinishPes(cfg, w, st.(previewSize := |st.pes|), true) else (st, true);
    AnalyzeKeepsPes(cfg, w, st1);
    UpdateAlike(Preview(cfg, w, st).0);
  }

  /** Repeated calls of `sf_recovery_analyze` without input. */
  function Looks(cfg: Config, w: World, c: Ctx, n: nat): Ctx
  {
    if n == 0 then c else AnalyzeCtx(cfg, w, Looks(cfg, w, c, n - 1))
  }

  /** What is left to show. */
  function Queue(c: Ctx): nat
  {
    if HeadersComplete(c.fed.st.codec, c.fed.st.headers) then |Waiting(c.fed.st)| else 0
  }

  lemma QueueAlike(a: Rec, b: Rec)
    requires Alike(a, b)
    ensures Waiting(a) == Waiting(b)
  {
    WaitingFrame(a, b);
  }

  /** One look when the open unit has been looked at before. */
  lemma LookAgain(cfg: Config, w: World, c: Ctx)
    requires !c.fed.failed && Previewed(c.fed.st) && !AnalyzeCtx(cfg, w, c).fed.failed
    ensures var r := AnalyzeCtx(cfg, w, c);
            && Previewed(r.fed.st)
            && Queue(r) == (if Queue(c) > cfg.maxCandidates then Queue(c) - cfg.maxCandidates else 0)
            && (HeadersComplete(c.fed.st.codec, c.fed.st.headers) ==> !r.fed.st.dirty)
            && r.fed.st.codec == c.fed.st.codec && r.fed.st.headers == c.fed.st.headers
            && (Queue(c) == 0 && (HeadersComplete(c.fed.st.codec, c.fed.st.headers) ==> !c.fed.st.dirty) ==>
                  r.fed.st.out.shown == c.fed.st.out.shown)
  {
    hide FinishPes, Update, Waiting, Streams, HeadersComplete, Marked;
    var st := c.fed.st;
    LookPreviews(cfg, w, c);
    var r := Analyze(cfg, w, st).0;
    assert Preview(cfg, w, st) == Analyze(cfg, w, st);
    UpdateAlike(r);
    QueueAlike(r, Update(r));
    AnalyzeKeepsPes(cfg, w, st);
    if HeadersComplete(st.codec, st.headers) {
      hide Analyze, VoteAdds;
      AnalyzePass(cfg, w, st);
      if Queue(c) == 0 {
        NoStreams(st);
      }
    }
  }

  lemma NoStreams(st: Rec)
    requires |Waiting(st)| == 0
    ensures Streams(st, Waiting(st)[..0]) == [] && st.out.shown + [] == st.out.shown
  {
    hide Waiting;
  }

  /** No look of the series fails. */
  predicate LooksSucceed(cfg: Config, w: World, c: Ctx, n: nat)
  {
    !Looks(cfg, w, c, n).fed.failed && (n > 0 ==> LooksSucceed(cfg, w, c, n - 1))
  }

  /** Each look at an open unit already looked at shortens the queue by `max_candidates`. */
  lemma {:induction false} LooksDrain(cfg: Config, w: World, c: Ctx, n: nat)
    requires Previewed(c.fed.st) && LooksSucceed(cfg, w, c, n)
    ensures var r := Looks(cfg, w, c, n);
            && Previewed(r.fed.st) && r.fed.st.codec == c.fed.st.codec && r.fed.st.headers == c.fed.st.headers
            && Queue(r) <= (if Queue(c) > n then Queue(c) - n else 0)
            && (n > 0 && HeadersComplete(c.fed.st.codec, c.fed.st.headers) ==> !r.fed.st.dirty)
  {
    hide AnalyzeCtx, Queue, HeadersComplete, Previewed;
    if n > 0 {
      LooksDrain(cfg, w, c, n - 1);
      LooksLast(cfg, w, c, n - 1);
      LookAgain(cfg, w, Looks(cfg, w, c, n - 1));
    }
  }

  lemma LooksLast(cfg: Config, w: World, c: Ctx, n: nat)
    requires LooksSucceed(cfg, w, c, n)
    ensures !Looks(cfg, w, c, n).fed.failed
  {
  }

  /** Looking often enough without feeding shows the host everything there is: once the first look has taken in the
      open unit, more further looks than candidates were waiting, and the next one shows nothing. */
  lemma LooksFallSilent(cfg: Config, w: World, c: Ctx, n: nat)
    requires !c.fed.failed
    requires var c1 := AnalyzeCtx(cfg, w, c); LooksSucceed(cfg, w, c1, n + 1) && n > Queue(c1)
    ensures var c1 := AnalyzeCtx(cfg, w, c);
            Looks(cfg, w, c1, n + 1).fed.st.out.shown == Looks(cfg, w, c1, n).fed.st.out.shown
  {
    hide AnalyzeCtx, Queue, HeadersComplete, Previewed;
    var c1 := AnalyzeCtx(cfg, w, c);
    LookPreviews(cfg, w, c);
    LooksDrain(cfg, w, c1, n);
    LooksLast(cfg, w, c1, n);
    LookAgain(cfg, w, Looks(cfg, w, c1, n));
  }

  // ---------- Previews and the header cache ----------

  /** A parameter set longer than the one in its slot, and not too long to be cached. */
  predicate Lengthens(codec: Codec, headers: Headers, data: seq<byte>, u: Unit)
    requires u.at + u.prefix < |data| && u.at <= u.end <= |data|
  {
    && HasNalHeader(codec, u)
    && var slot := HeaderSlot(codec, NalType(codec, data[u.at + u.prefix]));
       slot.Some? && |headers[slot.value]| < u.end - u.at <= MAX_HEADER
  }

  lemma LengthensSlot(codec: Codec, headers: Headers, data: seq<byte>, u: Unit)
    requires u.at + u.prefix < |data| && u.at <= u.end <= |data|
    ensures Lengthens(codec, headers, data, u) <==>
            exists slot :: 0 <= slot < 3 && IsHeaderUnit(codec, data, u, slot) && |headers[slot]| < u.end - u.at <= MAX_HEADER
  {
    if Lengthens(codec, headers, data, u) {
      var slot := HeaderSlot(codec, NalType(codec, data[u.at + u.prefix])).value;
      assert IsHeaderUnit(codec, data, u, slot);
    }
  }

  /** A cached parameter set that changed was replaced by a longer one. */
  lemma {:induction false} ChangedSlotGrew(codec: Codec, scan: Scan, data: seq<byte>, us: seq<Unit>, slot: nat)
    requires slot < 3 && PlacedIn(data, us)
    ensures var r := ScanUnits(codec, scan, data, us);
            r.headers[slot] != scan.headers[slot] ==> |r.headers[slot]| > |scan.headers[slot]|
    ensures var r := ScanUnits(codec, scan, data, us);
            |r.headers[slot]| <= MAX_HEADER || r.headers[slot] == scan.headers[slot]
    decreases |us|
  {
    if us != [] {
      ScanTurn(codec, scan, data, us);
      OneGrows(codec, scan, data, us[0], slot);
      ChangedSlotGrew(codec, ScanUnit(codec, scan, data, us[0]), data, us[1..], slot);
    }
  }

  lemma OneGrows(codec: Codec, scan: Scan, data: seq<byte>, u: Unit, slot: nat)
    requires slot < 3 && u.at + u.prefix < |data| && u.at <= u.end <= |data|
    ensures var r := ScanUnit(codec, scan, data, u);
            r.headers[slot] != scan.headers[slot] ==> |scan.headers[slot]| < |r.headers[slot]| <= MAX_HEADER
  {
  }

  lemma SlotKept(codec: Codec, scan: Scan, data: seq<byte>, us: seq<Unit>, slot: nat)
    requires slot < 3 && PlacedIn(data, us)
    requires forall k :: 0 <= k < |us| ==> !Lengthens(codec, scan.headers, data, us[k])
    ensures ScanUnits(codec, scan, data, us).headers[slot] == scan.headers[slot]
  {
    hide ScanUnits, Lengthens, IsHeaderUnit;
    var r := ScanUnits(codec, scan, data, us);
    LongestHeaderWins(codec, scan, data, us, slot);
    ChangedSlotGrew(codec, scan, data, us, slot);
    if r.headers[slot] != scan.headers[slot] {
      var k :| 0 <= k < |us| && IsHeaderUnit(codec, data, us[k], slot) && r.headers[slot] == data[us[k].at..us[k].end];
      LengthensSlot(codec, scan.headers, data, us[k]);
    }
  }

  /** A scan leaves the header cache alone exactly when no unit would lengthen one of its slots. */
  lemma ScanKeepsHeaders(codec: Codec, scan: Scan, data: seq<byte>, us: seq<Unit>)
    requires PlacedIn(data, us)
    ensures ScanUnits(codec, scan, data, us).headers == scan.headers <==>
            forall k :: 0 <= k < |us| ==> !Lengthens(codec, scan.headers, data, us[k])
  {
    hide ScanUnits, Lengthens, IsHeaderUnit;
    var r := ScanUnits(codec, scan, data, us);
    if k :| 0 <= k < |us| && Lengthens(codec, scan.headers, data, us[k]) {
      LengthensSlot(codec, scan.headers, data, us[k]);
      var slot :| 0 <= slot < 3 && IsHeaderUnit(codec, data, us[k], slot)
                  && |scan.headers[slot]| < us[k].end - us[k].at <= MAX_HEADER;
      LongestHeaderWins(codec, scan, data, us, slot);
    } else {
      SlotKept(codec, scan, data, us, 0);
      SlotKept(codec, scan, data, us, 1);
      SlotKept(codec, scan, data, us, 2);
      assert r.headers == scan.headers;
    }
  }

  /** No unit of the open PES, as far as it has come, would lengthen a cached parameter set. */
  predicate NothingLonger(st: Rec)
  {
    var es := Elementary(st.pes);
    forall k :: 0 <= k < |Split(es)| ==> !Lengthens(st.codec, st.headers, es, Split(es)[k])
  }

  /** A look leaves the header cache alone exactly when it has nothing new to scan or the part of the open access unit
      that has come so far holds no longer parameter set. A unit cut off at the end of that part counts as it is. */
  lemma PreviewKeepsHeaders(cfg: Config, w: World, st: Rec)
    ensures Preview(cfg, w, st).0.headers == st.headers <==>
            Previewed(st) || st.current[PACKETS] == 0.0 || NothingLonger(st)
  {
    hide Analyze, Split, ScanUnits, Lengthens;
    var noted := st.(previewSize := |st.pes|);
    if !Previewed(st) {
      PartialHeaders(cfg, w, noted);
      AnalyzeKeepsPes(cfg, w, FinishPes(cfg, w, noted, true).0);
    } else {
      AnalyzeKeepsPes(cfg, w, st);
    }
  }

  /** The headers a partial or whole close leaves are those of the scan. */
  lemma CloseHeaders(cfg: Config, w: World, st: Rec, partial: bool)
    requires st.current[PACKETS] != 0.0
    ensures FinishPes(cfg, w, st, partial).0.headers == ScanPes(st).headers
  {
    hide ScanPes, Store, Analyze;
    var scan := ScanPes(st);
    var f := UnitFeatures(st, scan);
    var st1 := Scanned(st, scan, partial);
    var st2 := if partial then st1 else Record(st1, f);
    StoreKeepsPes(cfg, st2, scan, f);
    var st3 := Store(cfg, st2, scan, f);
    AnalyzeKeepsPes(cfg, w, if partial then st3 else StartUnit(st3));
  }

  lemma PartialHeaders(cfg: Config, w: World, st: Rec)
    ensures FinishPes(cfg, w, st, true).0.headers == st.headers <==> st.current[PACKETS] == 0.0 || NothingLonger(st)
  {
    if st.current[PACKETS] != 0.0 {
      CloseHeaders(cfg, w, st, true);
      hide Split, ScanUnits, Lengthens, FinishPes;
      var es := Elementary(st.pes);
      var averaged := st.current[PACKET_CONFIDENCE := st.current[PACKET_CONFIDENCE] / st.current[PACKETS]];
      ScanKeepsHeaders(st.codec, Scan(st.headers, st.headerVersion, st.dirty, averaged, [], 0, 0), es, Split(es));
    }
  }
}
