// How often an access unit is shown for the same parameter sets: one analysis, one end of a unit, one look
// (src/recovery.c:154-209, 225-283).
module RecoveryMarks {
  import opened Bytes
  import opened TsPackets
  import opened PsiTables
  import opened AnnexB
  import opened RankModels
  import opened Framing
  import opened RecoverySpec
  import opened RecoveryInvariants
  import opened RecoveryRuns

  // ---------- Showings and what is still owed ----------

  /** A candidate of that access unit waits to be shown under the current header version. */
  predicate Due(st: Rec, index: nat)
  {
    exists i :: 0 <= i < |st.candidates| && st.candidates[i].features.index == index && st.candidates[i].emitted != st.headerVersion
  }

  /** The unit is not closed yet, or waits. */
  predicate MayShow(st: Rec, index: nat)
  {
    index >= st.counters.accessUnits || Due(st, index)
  }

  function One(b: bool): nat
  {
    if b then 1 else 0
  }

  /** A ranked stream of that access unit, shown under that header version. */
  predicate Shows(s: Shown, version: nat, index: nat)
  {
    !s.voted && s.version == version && s.features.index == index
  }

  /** How often the unit stands in the list of what was shown. */
  function Showings(shown: seq<Shown>, version: nat, index: nat): nat
  {
    if shown == [] then 0 else
    Showings(shown[..|shown| - 1], version, index) + One(Shows(shown[|shown| - 1], version, index))
  }

  lemma ShowingsAppend(shown: seq<Shown>, s: Shown, version: nat, index: nat)
    ensures Showings(shown + [s], version, index) == Showings(shown, version, index) + One(Shows(s, version, index))
  {
    assert (shown + [s])[..|shown + [s]| - 1] == shown;
  }

  /** One showing is owed to a unit that waits under this version. */
  function Owed(st: Rec, version: nat, index: nat): nat
  {
    One(version == st.headerVersion && Due(st, index))
  }

  /** How often, at most, the unit may yet be shown under this version if no look meets it: not under a past version, and
      once under a later one. */
  function Allowance(st: Rec, version: nat, index: nat): nat
  {
    One(st.headerVersion < version || (st.headerVersion == version && MayShow(st, index)))
  }

  // ---------- Analysis ----------

  /** What has been shown since carries the header versions of that time. */
  predicate Dated(a: Rec, b: Rec)
  {
    forall p :: |a.out.shown| <= p < |b.out.shown| ==> a.headerVersion <= b.out.shown[p].version <= b.headerVersion
  }

  /** What analysis does to the account of a unit: each showing settles what was owed, so that their sum stays; when a
      callback refuses, the refused stream was owed too. */
  predicate Settles(a: Rec, b: Rec, ok: bool, version: nat, index: nat)
  {
    && a.out.shown <= b.out.shown
    && Dated(a, b)
    && b.headerVersion == a.headerVersion
    && b.counters.accessUnits == a.counters.accessUnits
    && (Due(b, index) ==> Due(a, index))
    && var before := Showings(a.out.shown, version, index) + Owed(a, version, index);
       if ok then Showings(b.out.shown, version, index) + Owed(b, version, index) == before
       else Showings(b.out.shown, version, index) <= before
  }

  lemma SettlesTrans(a: Rec, b: Rec, c: Rec, ok: bool, version: nat, index: nat)
    requires Settles(a, b, true, version, index) && Settles(b, c, ok, version, index)
    ensures Settles(a, c, ok, version, index)
  {
    hide Due, Showings;
  }

  lemma SettlesSelf(st: Rec, version: nat, index: nat)
    ensures Settles(st, st, true, version, index) && Settles(st, st, false, version, index)
  {
    hide Due, Showings;
  }

  /** A stream shown, and its candidate marked unless the callback refuses. */
  lemma EmitSettles(cfg: Config, w: World, st: Rec, x: nat, version: nat, index: nat)
    requires Rising(st.candidates) && x < |st.candidates| && st.candidates[x].emitted != st.headerVersion
    ensures var c := st.candidates[x];
            var st1 := Emit(cfg, w, st, HeaderBytes(st.headers, Required(st.codec)) + c.data, c.features, false).0;
            var st2 := st1.(candidates := st.candidates[x := c.(emitted := st.headerVersion)]);
            && Settles(st, st1, false, version, index) && Settles(st, st2, true, version, index)
            && Rising(st2.candidates)
  {
    hide Emit, HeaderBytes, Showings;
    var c := st.candidates[x];
    var data := HeaderBytes(st.headers, Required(st.codec)) + c.data;
    EmitOk(cfg, w, st, data, c.features, false);
    ShowingsAppend(st.out.shown, Shown(data, c.features, false, st.headerVersion), version, index);
    MarkSettles(st, x, index);
  }

  /** A mark takes exactly its own unit off the queue. */
  lemma MarkSettles(st: Rec, x: nat, index: nat)
    requires Rising(st.candidates) && x < |st.candidates| && st.candidates[x].emitted != st.headerVersion
    ensures var c := st.candidates[x];
            var st' := st.(candidates := st.candidates[x := c.(emitted := st.headerVersion)]);
            && Due(st, c.features.index)
            && (Due(st', index) <==> Due(st, index) && index != c.features.index)
            && Rising(st'.candidates)
  {
    var c := st.candidates[x];
    var st' := st.(candidates := st.candidates[x := c.(emitted := st.headerVersion)]);
    assert forall i :: 0 <= i < |st.candidates| && i != x ==> st'.candidates[i] == st.candidates[i];
    if Due(st, index) && index != c.features.index {
      var i :| 0 <= i < |st.candidates| && st.candidates[i].features.index == index && st.candidates[i].emitted != st.headerVersion;
      assert st'.candidates[i] == st.candidates[i];
    }
    if Due(st', index) {
      var i :| 0 <= i < |st'.candidates| && st'.candidates[i].features.index == index && st'.candidates[i].emitted != st'.headerVersion;
      assert st'.candidates[i] == st.candidates[i];
    }
  }

  lemma {:induction false} EmitRankedSettles(cfg: Config, w: World, st: Rec, order: seq<nat>, i: nat, emitted: nat, version: nat, index: nat)
    requires Rising(st.candidates) && forall k :: 0 <= k < |order| ==> order[k] < |st.candidates|
    ensures var (r, ok) := EmitRanked(cfg, w, st, order, i, emitted); Settles(st, r, ok, version, index)
    decreases |order| - i
  {
    hide Emit, HeaderBytes, Settles, Rising;
    SettlesSelf(st, version, index);
    if i < |order| && emitted < cfg.maxCandidates {
      var c := st.candidates[order[i]];
      if c.emitted == st.headerVersion {
        EmitRankedSettles(cfg, w, st, order, i + 1, emitted, version, index);
      } else {
        EmitSettles(cfg, w, st, order[i], version, index);
        var (st1, ok) := Emit(cfg, w, st, HeaderBytes(st.headers, Required(st.codec)) + c.data, c.features, false);
        if ok {
          var st2 := st1.(candidates := st.candidates[order[i] := c.(emitted := st.headerVersion)]);
          EmitRankedSettles(cfg, w, st2, order, i + 1, emitted + 1, version, index);
          var (r, ok2) := EmitRanked(cfg, w, st2, order, i + 1, emitted + 1);
          SettlesTrans(st, st2, r, ok2, version, index);
        }
      }
    }
  }

  /** A voted stream settles nothing and is not counted. */
  lemma VotedSettles(cfg: Config, w: World, st: Rec, data: seq<byte>, f: Features, version: nat, index: nat)
    ensures var st1 := Emit(cfg, w, st, data, f, true).0;
            Settles(st, st1, true, version, index) && Settles(st, st1, false, version, index)
  {
    hide Emit, Showings;
    EmitOk(cfg, w, st, data, f, true);
    ShowingsAppend(st.out.shown, Shown(data, f, true, st.headerVersion), version, index);
    assert Due(Emit(cfg, w, st, data, f, true).0, index) == Due(st, index);
  }

  lemma {:induction false} VoteSettles(cfg: Config, w: World, st: Rec, order: seq<nat>, i: nat, version: nat, index: nat)
    requires i <= |order| && forall k :: 0 <= k < |order| ==> order[k] < |st.candidates|
    ensures var (r, ok) := Vote(cfg, w, st, order, i); Settles(st, r, ok, version, index)
    decreases |order| - i
  {
    hide Emit, HeaderBytes, Members, VotedSlice, BucketSeen, Bucket, ImagesOk, Settles;
    SettlesSelf(st, version, index);
    if i < |order| {
      var c := st.candidates[order[i]];
      var members := Members(st.candidates, order[i..], Bucket(c));
      if BucketSeen(st.candidates, order, i, Bucket(c)) || |members| < 2 {
        VoteSettles(cfg, w, st, order, i + 1, version, index);
      } else {
        var data := HeaderBytes(st.headers, Required(st.codec)) + VotedSlice(cfg, members);
        EmitOk(cfg, w, st, data, c.features, true);
        VotedSettles(cfg, w, st, data, c.features, version, index);
        var (st1, ok) := Emit(cfg, w, st, data, c.features, true);
        if ok {
          VoteSettles(cfg, w, st1, order, i + 1, version, index);
          var (r, ok2) := Vote(cfg, w, st1, order, i + 1);
          SettlesTrans(st, st1, r, ok2, version, index);
        }
      }
    }
  }

  /** Every analysis keeps the account: showings plus what is owed. */
  lemma AnalyzeSettles(cfg: Config, w: World, st: Rec, version: nat, index: nat)
    requires Rising(st.candidates)
    ensures var (r, ok) := Analyze(cfg, w, st); Settles(st, r, ok, version, index)
  {
    hide EmitRanked, Vote, Ranked, HeadersComplete, Settles, Rising;
    SettlesSelf(st, version, index);
    if HeadersComplete(st.codec, st.headers) {
      var order := Ranked(st.candidates);
      EmitRankedSettles(cfg, w, st, order, 0, 0, version, index);
      var (st1, ok1) := EmitRanked(cfg, w, st, order, 0, 0);
      if ok1 {
        SettlesSelf(st1, version, index);
        VoteSettles(cfg, w, st1, order, 0, version, index);
        var (st2, ok2) := if cfg.vote && st1.dirty then Vote(cfg, w, st1, order, 0) else (st1, true);
        SettlesTrans(st, st1, st2, ok2, version, index);
        if ok2 {
          SettlesClean(st, st2, version, index);
        }
      }
    }
  }

  lemma SettlesClean(a: Rec, b: Rec, version: nat, index: nat)
    requires Settles(a, b, true, version, index)
    ensures Settles(a, b.(dirty := false), true, version, index)
  {
    hide Showings;
    assert Due(b.(dirty := false), index) == Due(b, index);
  }

  // ---------- Access units ----------

  /** What the store gains is the candidate of the unit. */
  lemma StoreGains(cfg: Config, st: Rec, scan: Scan, f: Features)
    requires ScanInside(scan) && Safe(cfg, st) && ScanOk(scan) && |scan.data| <= cfg.maxBytes / 2 && f.values == scan.values
    requires StoreOk(cfg, st.candidates, st.retained, f.index) && f.index <= st.counters.accessUnits
    ensures var r := Store(cfg, st, scan, f);
            && r.out == st.out && r.headerVersion == st.headerVersion && r.counters.accessUnits == st.counters.accessUnits
            && forall c :: c in r.candidates ==> c in st.candidates || c.features.index == f.index
  {
    hide Keep, TotalSize, Rising, ImagesOk;
    if f.values[HAS_IDR] != 0.0 && !st.dropping {
      var ranked := f.(score := RankScore(cfg.model, f.values, f.score));
      var c := CandidateRecord(scan.data, scan.keyOffset, scan.keySize, ranked, 0);
      KeepOk(cfg, st, c, st.counters.accessUnits);
      KeepFrame(cfg, st, c);
    }
  }

  /** The exception to the rule: a unit that closes is stored anew, without the mark of an earlier look, exactly when it
      holds a keyframe and was not given up; it waits again then. */
  lemma StoredAnewWaits(cfg: Config, st: Rec, scan: Scan, f: Features)
    requires ScanInside(scan) && Safe(cfg, st) && ScanOk(scan) && |scan.data| <= cfg.maxBytes / 2 && f.values == scan.values
    requires StoreOk(cfg, st.candidates, st.retained, f.index) && f.index <= st.counters.accessUnits
    ensures Due(Store(cfg, st, scan, f), f.index) <==>
            if f.values[HAS_IDR] != 0.0 && !st.dropping then st.headerVersion != 0 else Due(st, f.index)
  {
    hide Keep, TotalSize, ImagesOk;
    if f.values[HAS_IDR] != 0.0 && !st.dropping {
      var ranked := f.(score := RankScore(cfg.model, f.values, f.score));
      var c := CandidateRecord(scan.data, scan.keyOffset, scan.keySize, ranked, 0);
      KeepOk(cfg, st, c, st.counters.accessUnits);
      KeepFrame(cfg, st, c);
      var r := Keep(cfg, st, c);
      assert forall i :: 0 <= i < |r.candidates| - 1 ==> r.candidates[i].features.index < f.index;
      assert r.candidates[|r.candidates| - 1].emitted == 0;
    }
  }

  /** The unit scanned, recorded and stored: the state the analysis meets. */
  function Stored(cfg: Config, st: Rec, partial: bool): Rec
    requires st.current[PACKETS] != 0.0
  {
    var scan := ScanPes(st);
    var f := UnitFeatures(st, scan);
    var st1 := Scanned(st, scan, partial);
    var st3 := Store(cfg, if partial then st1 else Record(st1, f), scan, f);
    if partial then st3 else StartUnit(st3)
  }

  /** The end of a unit, or a look at it, shows nothing before the analysis, and adds at most that unit to the store. */
  predicate Gains(cfg: Config, st: Rec, mid: Rec, closed: bool)
  {
    && mid.out.shown == st.out.shown && mid.headerVersion >= st.headerVersion
    && mid.counters.accessUnits == st.counters.accessUnits + One(closed)
    && Rising(mid.candidates)
    && forall c :: c in mid.candidates ==> c.features.index <= st.counters.accessUnits
                                           && (c in st.candidates || c.features.index == st.counters.accessUnits)
  }

  lemma StoredGains(cfg: Config, st: Rec, partial: bool)
    requires Safe(cfg, st) && st.current[PACKETS] != 0.0
    ensures Gains(cfg, st, Stored(cfg, st, partial), !partial)
  {
    ScannedSafe(cfg, st, partial);
    ScanPesOk(cfg, st);
    UnitStored(cfg, st, partial);
    hide ScanPes, Store, TotalSize, Rising, ImagesOk, ScanOk, HeadersOk, EmittedOk, CurrentOk, PesOk, HeuristicScore;
    var scan := ScanPes(st);
    var f := UnitFeatures(st, scan);
    var st1 := Scanned(st, scan, partial);
    StoreGains(cfg, if partial then st1 else Record(st1, f), scan, f);
  }

  lemma SameGains(cfg: Config, st: Rec)
    requires Safe(cfg, st)
    ensures Gains(cfg, st, st, false)
  {
    hide TotalSize, Rising, ImagesOk;
  }

  /** A unit refused by the feature callback is counted but not stored. */
  lemma RefusedGains(cfg: Config, st: Rec)
    requires Safe(cfg, st) && st.current[PACKETS] != 0.0
    ensures var scan := ScanPes(st);
            Gains(cfg, st, Record(Scanned(st, scan, false), UnitFeatures(st, scan)), true)
  {
    ScanPesOk(cfg, st);
    hide ScanPes, TotalSize, Rising, ImagesOk, HeuristicScore;
  }

  /** The end of a unit, or a look at it, is such a step followed by an analysis, or by nothing. */
  lemma FinishSettles(cfg: Config, w: World, st: Rec, partial: bool, version: nat, index: nat) returns (mid: Rec)
    requires Safe(cfg, st) && st.current[PACKETS] != 0.0
    ensures Gains(cfg, st, mid, !partial)
    ensures var (r, ok) := FinishPes(cfg, w, st, partial);
            Settles(mid, r, ok, version, index) && (ok ==> mid == Stored(cfg, st, partial))
  {
    hide ScanPes, Store, Analyze, Safe, Gains, Settles, HeuristicScore;
    var scan := ScanPes(st);
    var st1 := Scanned(st, scan, partial);
    if !partial && !w.featuresOk(st1.out.calls) {
      mid := Record(st1, UnitFeatures(st, scan));
      RefusedGains(cfg, st);
      SettlesSelf(mid, version, index);
    } else {
      mid := Stored(cfg, st, partial);
      StoredGains(cfg, st, partial);
      SettlesSelf(mid, version, index);
      GainsRising(cfg, st, mid, !partial);
      AnalyzeSettles(cfg, w, mid, version, index);
    }
  }

  lemma GainsRising(cfg: Config, st: Rec, mid: Rec, closed: bool)
    requires Gains(cfg, st, mid, closed)
    ensures Rising(mid.candidates) && mid.headerVersion >= st.headerVersion
  {
  }

  /** When a unit is shown twice: its end (or a further look) shows it, or leaves it waiting, in addition to all showings
      so far, exactly when it is stored anew under some header version, that is when it holds a keyframe and was not
      given up, or, if it is not stored, when it was still owed a showing under the headers it leaves. */
  lemma FinishShowsAnew(cfg: Config, w: World, st: Rec, partial: bool)
    requires Safe(cfg, st) && st.current[PACKETS] != 0.0 && FinishPes(cfg, w, st, partial).1
    ensures var r := FinishPes(cfg, w, st, partial).0;
            var scan, index, version := ScanPes(st), st.counters.accessUnits, r.headerVersion;
            Showings(r.out.shown, version, index) + Owed(r, version, index) ==
            Showings(st.out.shown, version, index)
            + if scan.values[HAS_IDR] != 0.0 && !st.dropping then One(version != 0) else Owed(Scanned(st, scan, partial), version, index)
  {
    var r := FinishPes(cfg, w, st, partial).0;
    var mid := FinishSettles(cfg, w, st, partial, r.headerVersion, st.counters.accessUnits);
    StoredOwes(cfg, st, partial);
    hide ScanPes, FinishPes, Stored, Showings, Due, Rising;
  }

  lemma StoredOwes(cfg: Config, st: Rec, partial: bool)
    requires Safe(cfg, st) && st.current[PACKETS] != 0.0
    ensures var scan, index := ScanPes(st), st.counters.accessUnits;
            Due(Stored(cfg, st, partial), index) <==>
            if scan.values[HAS_IDR] != 0.0 && !st.dropping then scan.headerVersion != 0 else Due(Scanned(st, scan, partial), index)
  {
    ScannedSafe(cfg, st, partial);
    ScanPesOk(cfg, st);
    hide ScanPes, Store, TotalSize, Rising, ImagesOk, ScanOk, HeuristicScore;
    var scan := ScanPes(st);
    var f := UnitFeatures(st, scan);
    var st1 := Scanned(st, scan, partial);
    var st2 := if partial then st1 else Record(st1, f);
    assert Due(st2, f.index) == Due(st1, f.index);
    StoredAnewWaits(cfg, st2, scan, f);
    var st3 := Store(cfg, st2, scan, f);
    assert Due(StartUnit(st3), f.index) == Due(st3, f.index);
  }

  // ---------- From one moment to a later one ----------

  /** Between two moments the showings of a unit under a header version, and what it may be shown after, stay within what
      it could be shown before, and one more for each look at it. */
  predicate Within(a: Rec, b: Rec, ok: bool, version: nat, index: nat, looks: nat)
  {
    && a.out.shown <= b.out.shown
    && Dated(a, b)
    && a.headerVersion <= b.headerVersion
    && a.counters.accessUnits <= b.counters.accessUnits
    && (a.headerVersion == b.headerVersion && Due(b, index) ==> MayShow(a, index))
    && Showings(b.out.shown, version, index) + (if ok then Allowance(b, version, index) else 0)
       <= Showings(a.out.shown, version, index) + Allowance(a, version, index) + looks
  }

  lemma WithinTrans(a: Rec, b: Rec, c: Rec, ok: bool, version: nat, index: nat, m: nat, n: nat)
    requires Within(a, b, true, version, index, m) && Within(b, c, ok, version, index, n)
    ensures Within(a, c, ok, version, index, m + n)
  {
    hide Due, Showings, Allowance;
  }

  lemma WithinSelf(st: Rec, version: nat, index: nat)
    ensures Within(st, st, true, version, index, 0) && Within(st, st, false, version, index, 0)
  {
    hide Due, Showings;
  }

  /** Storing a unit before the analysis. */
  lemma GainsWithin(cfg: Config, st: Rec, mid: Rec, closed: bool, version: nat, index: nat)
    requires Gains(cfg, st, mid, closed)
    ensures Within(st, mid, true, version, index, 0)
  {
    hide Rising, Showings;
    if index < st.counters.accessUnits && mid.headerVersion == st.headerVersion && Due(mid, index) {
      var i :| 0 <= i < |mid.candidates| && mid.candidates[i].features.index == index && mid.candidates[i].emitted != mid.headerVersion;
      assert mid.candidates[i] in st.candidates;
    }
  }

  /** An analysis that meets the unit closed, or not in the store. */
  lemma SettlesWithin(a: Rec, b: Rec, ok: bool, version: nat, index: nat)
    requires Settles(a, b, ok, version, index) && (index < a.counters.accessUnits || !Due(a, index))
    ensures Within(a, b, ok, version, index, 0)
  {
    hide Due, Showings;
  }

  /** A look at the open unit itself. */
  lemma LookedWithin(st: Rec, mid: Rec, r: Rec, ok: bool, version: nat, index: nat)
    requires mid.out.shown == st.out.shown && mid.headerVersion >= st.headerVersion
    requires mid.counters.accessUnits == st.counters.accessUnits == index
    requires Settles(mid, r, ok, version, index)
    ensures Within(st, r, ok, version, index, One(version == r.headerVersion))
  {
    hide Due, Showings;
  }

  lemma GainsNotDue(cfg: Config, st: Rec, mid: Rec, closed: bool, index: nat)
    requires Gains(cfg, st, mid, closed) && index > st.counters.accessUnits
    ensures !Due(mid, index)
  {
    hide Rising;
  }
}
