// Ranking, emission and voting (src/recovery.c:141-209).
module RecoveryRanking {
  import opened Bytes
  import opened AnnexB
  import opened RankModels
  import opened RecoverySpec
  import opened RecoveryInvariants

  // ---------- The order ----------

  /** Higher score first, earlier candidate first among equals. */
  predicate Before(scores: seq<real>, a: nat, b: nat)
    requires a < |scores| && b < |scores|
  {
    scores[a] > scores[b] || (scores[a] == scores[b] && a < b)
  }

  predicate Indices(order: seq<nat>, n: nat)
  {
    forall k :: 0 <= k < |order| ==> order[k] < n
  }

  predicate Sorted(scores: seq<real>, order: seq<nat>)
    requires Indices(order, |scores|)
  {
    forall j, k :: 0 <= j < k < |order| ==> Before(scores, order[j], order[k])
  }

  lemma SortedAppend(scores: seq<real>, r: seq<nat>, x: nat)
    requires Indices(r, |scores|) && x < |scores| && Sorted(scores, r)
    requires forall j :: 0 <= j < |r| ==> Before(scores, r[j], x)
    ensures Sorted(scores, r + [x])
  {
    hide Before;
    var s := r + [x];
    forall j, k | 0 <= j < k < |s| ensures Before(scores, s[j], s[k]) {
      if k < |r| {
        assert Before(scores, r[j], r[k]);
      }
    }
  }

  lemma SortedFront(scores: seq<real>, r: seq<nat>)
    requires r != [] && Indices(r, |scores|) && Sorted(scores, r)
    ensures Sorted(scores, r[..|r| - 1])
    ensures forall k :: 0 <= k < |r| - 1 ==> Before(scores, r[k], r[|r| - 1])
  {
  }

  /** What is ranked before the last of a sorted list is ranked before it after an insertion in front. */
  lemma InsertedBefore(scores: seq<real>, front: seq<nat>, r: seq<nat>, i: nat, last: nat)
    requires Indices(front, |scores|) && i < |scores| && last < |scores| && multiset(r) == multiset(front) + multiset{i}
    requires Before(scores, i, last) && forall k :: 0 <= k < |front| ==> Before(scores, front[k], last)
    ensures Indices(r, |scores|) && forall j :: 0 <= j < |r| ==> Before(scores, r[j], last)
  {
    hide Before;
    forall j | 0 <= j < |r| ensures r[j] < |scores| && Before(scores, r[j], last) {
      assert r[j] in multiset(r);
      if r[j] != i {
        assert r[j] in multiset(front);
        var k :| 0 <= k < |front| && front[k] == r[j];
      }
    }
  }

  lemma {:induction false} InsertKeeps(scores: seq<real>, order: seq<nat>, i: nat)
    requires i < |scores| && Indices(order, i) && Sorted(scores, order)
    ensures var r := Insert(scores, order, i);
            && Indices(r, i + 1) && Sorted(scores, r)
            && multiset(r) == multiset(order) + multiset{i}
    decreases |order|
  {
    hide Sorted;
    if order != [] && scores[order[|order| - 1]] < scores[i] {
      var front, last := order[..|order| - 1], order[|order| - 1];
      SortedFront(scores, order);
      InsertKeeps(scores, front, i);
      assert order == front + [last];
      var r := Insert(scores, front, i);
      InsertedBefore(scores, front, r, i, last);
      SortedAppend(scores, r, last);
    } else {
      if order != [] {
        LastBefore(scores, order, i);
      }
      SortedAppend(scores, order, i);
    }
  }

  lemma LastBefore(scores: seq<real>, order: seq<nat>, i: nat)
    requires order != [] && i < |scores| && Indices(order, i) && Sorted(scores, order)
    requires scores[order[|order| - 1]] >= scores[i]
    ensures forall j :: 0 <= j < |order| ==> Before(scores, order[j], i)
  {
    SortedFront(scores, order);
  }

  function UpTo(n: nat): multiset<nat>
  {
    if n == 0 then multiset{} else UpTo(n - 1) + multiset{n - 1}
  }

  lemma NothingSorted(scores: seq<real>)
    ensures Sorted(scores, [])
  {
  }

  /** The ranking is a permutation of the candidates, by falling score, stable among equals. */
  lemma {:induction false} OrderIsStableSort(scores: seq<real>, n: nat)
    requires n <= |scores|
    ensures var r := Order(scores, n);
            Indices(r, n) && Sorted(scores, r) && multiset(r) == UpTo(n)
  {
    hide Insert, Sorted;
    if n == 0 {
      NothingSorted(scores);
    } else {
      OrderIsStableSort(scores, n - 1);
      InsertKeeps(scores, Order(scores, n - 1), n - 1);
    }
  }

  lemma {:induction false} UpToCounts(n: nat, x: nat)
    ensures UpTo(n)[x] == if x < n then 1 else 0
  {
    if n > 0 {
      UpToCounts(n - 1, x);
    }
  }

  predicate Distinct(order: seq<nat>)
  {
    forall j, k :: 0 <= j < k < |order| ==> order[j] != order[k]
  }

  lemma SortedIsDistinct(scores: seq<real>, order: seq<nat>)
    requires Indices(order, |scores|) && Sorted(scores, order)
    ensures Distinct(order)
  {
    forall j, k | 0 <= j < k < |order| ensures order[j] != order[k] {
      assert Before(scores, order[j], order[k]);
    }
  }

  // ---------- Emission ----------

  /** The candidates a header version has not seen, best first. */
  function Unseen(candidates: seq<Candidate>, order: seq<nat>, version: nat): (r: seq<nat>)
    requires Indices(order, |candidates|)
    ensures Indices(r, |candidates|)
    ensures |r| <= |order|
  {
    if order == [] then []
    else if candidates[order[0]].emitted == version then Unseen(candidates, order[1..], version)
    else [order[0]] + Unseen(candidates, order[1..], version)
  }

  function Min(a: nat, b: nat): nat
  {
    if a < b then a else b
  }

  /** The streams of some candidates, each behind the headers. */
  function Streams(st: Rec, chosen: seq<nat>): (r: seq<Shown>)
    requires Indices(chosen, |st.candidates|)
    ensures |r| == |chosen|
  {
    seq(|chosen|, k requires 0 <= k < |chosen| =>
      Shown(HeaderBytes(st.headers, Required(st.codec)) + st.candidates[chosen[k]].data, st.candidates[chosen[k]].features, false, st.headerVersion))
  }

  /** Candidates with some of them marked as emitted for a version. */
  predicate Marked(a: seq<Candidate>, b: seq<Candidate>, chosen: seq<nat>, version: nat)
  {
    && |a| == |b|
    && forall i :: 0 <= i < |a| ==> b[i] == if i in chosen then a[i].(emitted := version) else a[i]
  }

  /** Marking a candidate that is not among those to come leaves them as they are. */
  lemma {:induction false} UnseenUnmarked(a: seq<Candidate>, b: seq<Candidate>, order: seq<nat>, version: nat, m: nat)
    requires Indices(order, |a|) && m < |a| == |b| && m !in order
    requires forall i :: 0 <= i < |a| && i != m ==> b[i] == a[i]
    ensures Unseen(b, order, version) == Unseen(a, order, version)
  {
    if order != [] {
      assert order[0] in order;
      assert m !in order[1..];
      UnseenUnmarked(a, b, order[1..], version, m);
    }
  }

  /** What the emission loop does from place `i` on. */
  predicate Emits(cfg: Config, st: Rec, order: seq<nat>, emitted: nat, r: Rec)
    requires Indices(order, |st.candidates|)
  {
    var unseen := Unseen(st.candidates, order, st.headerVersion);
    var n := Min(|unseen|, Room(cfg, emitted));
    && r.out.shown == st.out.shown + Streams(st, unseen[..n])
    && Marked(st.candidates, r.candidates, unseen[..n], st.headerVersion)
    && Unseen(r.candidates, order, st.headerVersion) == unseen[n..]
  }

  lemma UnseenSubset(candidates: seq<Candidate>, order: seq<nat>, version: nat)
    requires Indices(order, |candidates|)
    ensures forall x :: x in Unseen(candidates, order, version) ==> x in order
  {
    if order != [] {
      UnseenSubset(candidates, order[1..], version);
    }
  }

  function Room(cfg: Config, emitted: nat): nat
  {
    if cfg.maxCandidates > emitted then cfg.maxCandidates - emitted else 0
  }

  /** The loop skips what the version has seen. */
  lemma EmitsSkip(cfg: Config, st: Rec, order: seq<nat>, emitted: nat, r: Rec)
    requires Indices(order, |st.candidates|) && order != [] && st.candidates[order[0]].emitted == st.headerVersion
    requires Emits(cfg, st, order[1..], emitted, r)
    ensures Emits(cfg, st, order, emitted, r)
  {
    hide Streams;
    assert r.candidates[order[0]].emitted == st.headerVersion;
  }

  /** The loop ends. */
  lemma EmitsNothing(cfg: Config, st: Rec, order: seq<nat>, emitted: nat)
    requires Indices(order, |st.candidates|) && (order == [] || Room(cfg, emitted) == 0)
    ensures Emits(cfg, st, order, emitted, st)
  {
    var unseen := Unseen(st.candidates, order, st.headerVersion);
    assert unseen[..0] == [] && Streams(st, []) == [] && st.out.shown + [] == st.out.shown;
  }

  /** The loop emits one stream and goes on. */
  lemma EmitsOne(cfg: Config, st: Rec, st1: Rec, x: nat, rest: seq<nat>, emitted: nat, r: Rec)
    requires x < |st.candidates| && Indices(rest, |st.candidates|) && x !in rest && emitted < cfg.maxCandidates
    requires st.candidates[x].emitted != st.headerVersion
    requires st1.candidates == st.candidates[x := st.candidates[x].(emitted := st.headerVersion)]
    requires st1.headers == st.headers && st1.codec == st.codec && st1.headerVersion == st.headerVersion
    requires st1.out.shown == st.out.shown + Streams(st, [x])
    requires Emits(cfg, st1, rest, emitted + 1, r)
    ensures Emits(cfg, st, [x] + rest, emitted, r)
  {
    ChosenIndices(x, rest, rest, |st.candidates|);
    RoomLess(cfg, emitted);
    EmitsParts(cfg, st1, rest, emitted + 1, r);
    EmitsParts(cfg, st, [x] + rest, emitted, r);
    hide Streams, Marked, Indices, Room, Emits;
    var version := st.headerVersion;
    var later := Unseen(st.candidates, rest, version);
    var n := Min(|later|, Room(cfg, emitted + 1));
    UnseenUnmarked(st.candidates, st1.candidates, rest, version, x);
    UnseenFirst(st.candidates, x, rest, version);
    UnseenSubset(st.candidates, rest, version);
    NotChosen(x, rest, later, n);
    hide Unseen;
    CutBehind(x, later, n);
    ChosenIndices(x, later[..n], later, |st.candidates|);
    assert r.out.shown == st.out.shown + Streams(st, [x] + later[..n]) by {
      StreamsSplit(st, st1, x, later[..n]);
      Regroup(st.out.shown, Streams(st, [x]), Streams(st1, later[..n]));
    }
    MarkedFirst(st.candidates, st1.candidates, r.candidates, x, later[..n], version);
    assert Unseen(r.candidates, [x] + rest, version) == later[n..] by {
      MarkedIsStale(st.candidates, r.candidates, [x] + rest, [x] + later[..n], version);
      assert ([x] + rest)[1..] == rest;
    }
  }

  lemma RoomLess(cfg: Config, emitted: nat)
    requires emitted < cfg.maxCandidates
    ensures Room(cfg, emitted) == Room(cfg, emitted + 1) + 1
  {
  }

  /** The three parts of `Emits`. */
  lemma EmitsParts(cfg: Config, st: Rec, order: seq<nat>, emitted: nat, r: Rec)
    requires Indices(order, |st.candidates|)
    ensures var unseen := Unseen(st.candidates, order, st.headerVersion);
            var n := Min(|unseen|, Room(cfg, emitted));
            Emits(cfg, st, order, emitted, r) <==>
            && r.out.shown == st.out.shown + Streams(st, unseen[..n])
            && Marked(st.candidates, r.candidates, unseen[..n], st.headerVersion)
            && Unseen(r.candidates, order, st.headerVersion) == unseen[n..]
  {
    hide Streams, Unseen, Marked;
  }

  lemma NotChosen(x: nat, rest: seq<nat>, later: seq<nat>, n: nat)
    requires n <= |later| && x !in rest && forall y :: y in later ==> y in rest
    ensures x !in later[..n]
  {
  }

  lemma ChosenIndices(x: nat, chosen: seq<nat>, all: seq<nat>, n: nat)
    requires x < n && Indices(all, n) && chosen <= all
    ensures Indices([x], n) && Indices(chosen, n) && Indices([x] + chosen, n)
  {
  }

  lemma Regroup(a: seq<Shown>, b: seq<Shown>, c: seq<Shown>)
    ensures a + (b + c) == a + b + c
  {
  }

  lemma UnseenFirst(candidates: seq<Candidate>, x: nat, rest: seq<nat>, version: nat)
    requires x < |candidates| && Indices(rest, |candidates|) && candidates[x].emitted != version
    ensures Unseen(candidates, [x] + rest, version) == [x] + Unseen(candidates, rest, version)
  {
    assert ([x] + rest)[1..] == rest;
  }

  lemma CutBehind(x: nat, later: seq<nat>, n: nat)
    requires n <= |later|
    ensures ([x] + later)[..n + 1] == [x] + later[..n] && ([x] + later)[n + 1..] == later[n..]
  {
  }

  /** The emission loop shows the best unseen candidates, in order, as many as allowed, and marks exactly those. */
  lemma {:induction false} EmitRankedShows(cfg: Config, w: World, st: Rec, order: seq<nat>, i: nat, emitted: nat)
    requires Indices(order, |st.candidates|) && Distinct(order) && i <= |order|
    requires EmitRanked(cfg, w, st, order, i, emitted).1
    ensures Emits(cfg, st, order[i..], emitted, EmitRanked(cfg, w, st, order, i, emitted).0)
    decreases |order| - i
  {
    hide Emit, HeaderBytes, Emits, Streams;
    if i == |order| || emitted >= cfg.maxCandidates {
      EmitsNothing(cfg, st, order[i..], emitted);
    } else {
      var x := order[i];
      var c := st.candidates[x];
      assert order[i..][0] == x && order[i..][1..] == order[i + 1..];
      if c.emitted == st.headerVersion {
        EmitRankedShows(cfg, w, st, order, i + 1, emitted);
        EmitsSkip(cfg, st, order[i..], emitted, EmitRanked(cfg, w, st, order, i, emitted).0);
      } else {
        var data := HeaderBytes(st.headers, Required(st.codec)) + c.data;
        EmitOk(cfg, w, st, data, c.features, false);
        OneStream(st, x);
        var st1 := Emit(cfg, w, st, data, c.features, false).0.(candidates := st.candidates[x := c.(emitted := st.headerVersion)]);
        EmitRankedShows(cfg, w, st1, order, i + 1, emitted + 1);
        RestDiffers(order, i);
        EmitsOne(cfg, st, st1, x, order[i + 1..], emitted, EmitRanked(cfg, w, st, order, i, emitted).0);
        assert order[i..] == [x] + order[i + 1..];
      }
    }
  }

  lemma OneStream(st: Rec, x: nat)
    requires x < |st.candidates|
    ensures Streams(st, [x]) ==
            [Shown(HeaderBytes(st.headers, Required(st.codec)) + st.candidates[x].data, st.candidates[x].features, false, st.headerVersion)]
  {
  }

  lemma RestDiffers(order: seq<nat>, i: nat)
    requires Distinct(order) && i < |order|
    ensures order[i] !in order[i + 1..]
  {
  }

  lemma StreamsSplit(st: Rec, st1: Rec, x: nat, later: seq<nat>)
    requires x < |st.candidates| == |st1.candidates| && Indices(later, |st.candidates|) && x !in later
    requires st1.headers == st.headers && st1.codec == st.codec && st1.headerVersion == st.headerVersion
    requires forall i :: 0 <= i < |st.candidates| && i != x ==> st1.candidates[i] == st.candidates[i]
    ensures Streams(st, [x] + later) == Streams(st, [x]) + Streams(st1, later)
  {
    hide HeaderBytes;
    assert forall k :: 0 <= k < |later| ==> later[k] in later;
  }

  lemma MarkedFirst(a: seq<Candidate>, b: seq<Candidate>, c: seq<Candidate>, x: nat, later: seq<nat>, version: nat)
    requires x < |a| && b == a[x := a[x].(emitted := version)]
    requires Marked(b, c, later, version)
    ensures Marked(a, c, [x] + later, version)
  {
  }

  /** A candidate marked for the version is not unseen. */
  lemma MarkedIsStale(a: seq<Candidate>, b: seq<Candidate>, order: seq<nat>, chosen: seq<nat>, version: nat)
    requires Indices(order, |a|) && Marked(a, b, chosen, version) && order != [] && order[0] in chosen
    ensures Unseen(b, order, version) == Unseen(b, order[1..], version)
  {
  }

  lemma SortedTail(scores: seq<real>, r: seq<nat>)
    requires r != [] && Indices(r, |scores|) && Sorted(scores, r)
    ensures Sorted(scores, r[1..])
  {
  }

  lemma {:induction false} UnseenSorted(scores: seq<real>, candidates: seq<Candidate>, order: seq<nat>, version: nat)
    requires |scores| == |candidates| && Indices(order, |scores|) && Sorted(scores, order)
    ensures Sorted(scores, Unseen(candidates, order, version))
  {
    if order != [] {
      hide Before;
      var rest := order[1..];
      SortedTail(scores, order);
      UnseenSorted(scores, candidates, rest, version);
      if candidates[order[0]].emitted != version {
        UnseenSubset(candidates, rest, version);
        var later := Unseen(candidates, rest, version);
        forall k | 0 <= k < |later| ensures Before(scores, order[0], later[k]) {
          assert later[k] in rest;
          var i :| 0 <= i < |rest| && rest[i] == later[k];
          assert Before(scores, order[0], order[i + 1]);
        }
        SortedPrepend(scores, order[0], later);
      }
    }
  }

  lemma SortedPrepend(scores: seq<real>, x: nat, r: seq<nat>)
    requires Indices(r, |scores|) && x < |scores| && Sorted(scores, r)
    requires forall k :: 0 <= k < |r| ==> Before(scores, x, r[k])
    ensures Sorted(scores, [x] + r)
  {
    hide Before;
    var s := [x] + r;
    forall j, k | 0 <= j < k < |s| ensures Before(scores, s[j], s[k]) {
      if j > 0 {
        assert Before(scores, r[j - 1], r[k - 1]);
      }
    }
  }

  /** What the header version of a state has not seen, best first. */
  function Waiting(st: Rec): (r: seq<nat>)
    ensures Indices(r, |st.candidates|)
  {
    Unseen(st.candidates, Ranked(st.candidates), st.headerVersion)
  }

  lemma RankedSorted(candidates: seq<Candidate>)
    ensures Sorted(Scores(candidates), Ranked(candidates)) && Distinct(Ranked(candidates))
    ensures multiset(Ranked(candidates)) == UpTo(|candidates|)
  {
    OrderIsStableSort(Scores(candidates), |candidates|);
    SortedIsDistinct(Scores(candidates), Ranked(candidates));
  }

  /** A successful pass of the emission loop: the waiting candidates come in falling score order with stable ties,
      and the first `max_candidates` of them go out, in that order. */
  lemma PassEmitsBest(cfg: Config, w: World, st: Rec)
    requires EmitRanked(cfg, w, st, Ranked(st.candidates), 0, 0).1
    ensures var r := EmitRanked(cfg, w, st, Ranked(st.candidates), 0, 0).0;
            var n := Min(|Waiting(st)|, cfg.maxCandidates);
            && Sorted(Scores(st.candidates), Waiting(st))
            && r.out.shown == st.out.shown + Streams(st, Waiting(st)[..n])
            && Marked(st.candidates, r.candidates, Waiting(st)[..n], st.headerVersion)
            && Ranked(r.candidates) == Ranked(st.candidates)
            && Waiting(r) == Waiting(st)[n..]
  {
    hide Sorted, Streams, EmitRanked, Before;
    var order := Ranked(st.candidates);
    RankedSorted(st.candidates);
    UnseenSorted(Scores(st.candidates), st.candidates, order, st.headerVersion);
    EmitRankedShows(cfg, w, st, order, 0, 0);
    assert order[0..] == order;
    EmitRankedOk(cfg, w, st, order, 0, 0);
    var r := EmitRanked(cfg, w, st, order, 0, 0).0;
    SameScores(st.candidates, r.candidates, st.headerVersion);
  }

  lemma SameScores(a: seq<Candidate>, b: seq<Candidate>, version: nat)
    requires SameCandidates(a, b, version)
    ensures Ranked(a) == Ranked(b)
  {
    assert Scores(a) == Scores(b);
  }

  /** What a successful vote at the end of an analysis shows: one voted stream per bucket of two or more candidates. */
  predicate VoteAdds(cfg: Config, r: Rec, before: seq<Shown>)
  {
    && before <= r.out.shown
    && VotesShown(cfg, r, Ranked(r.candidates), Elections(r.candidates, Ranked(r.candidates), 0), r.out.shown[|before|..])
  }

  /** One successful analysis: the first waiting candidates go out, best first, and leave the queue; then, when a vote
      is due, every election sends its stream. */
  lemma AnalyzePass(cfg: Config, w: World, st: Rec)
    requires HeadersComplete(st.codec, st.headers) && Analyze(cfg, w, st).1
    ensures var r := Analyze(cfg, w, st).0;
            var n := Min(|Waiting(st)|, cfg.maxCandidates);
            var emitted := st.out.shown + Streams(st, Waiting(st)[..n]);
            && !r.dirty && r.headers == st.headers && r.codec == st.codec && r.headerVersion == st.headerVersion
            && Marked(st.candidates, r.candidates, Waiting(st)[..n], st.headerVersion)
            && Waiting(r) == Waiting(st)[n..]
            && if cfg.vote && st.dirty then VoteAdds(cfg, r, emitted) else r.out.shown == emitted
  {
    hide EmitRanked, Vote, Waiting, Streams, Ranked, Marked, VotesShown, Elections;
    PassEmitsBest(cfg, w, st);
    var order := Ranked(st.candidates);
    EmitRankedOk(cfg, w, st, order, 0, 0);
    var (st1, ok1) := EmitRanked(cfg, w, st, order, 0, 0);
    VoteOk(cfg, w, st1, order, 0);
    var r := Analyze(cfg, w, st).0;
    WaitingFrame(st1, r);
    if cfg.vote && st.dirty {
      VoteShows(cfg, w, st1, order, 0);
      VotesShownFrame(cfg, st1, r, order, Elections(r.candidates, order, 0), r.out.shown[|st1.out.shown|..]);
    }
  }

  lemma VotesShownFrame(cfg: Config, a: Rec, b: Rec, order: seq<nat>, buckets: seq<nat>, new': seq<Shown>)
    requires a.candidates == b.candidates && a.headers == b.headers && a.codec == b.codec && a.headerVersion == b.headerVersion
    requires Indices(order, |a.candidates|) && VotesShown(cfg, a, order, buckets, new')
    ensures VotesShown(cfg, b, order, buckets, new')
  {
    hide Members, VotedSlice, HeaderBytes;
  }

  lemma WaitingFrame(a: Rec, b: Rec)
    requires a.candidates == b.candidates && a.headerVersion == b.headerVersion
    ensures Waiting(a) == Waiting(b)
  {
  }

  /** Repeated analysis without input. */
  function Passes(cfg: Config, w: World, st: Rec, n: nat): (Rec, bool)
  {
    if n == 0 then (st, true) else
    var (st1, ok) := Passes(cfg, w, st, n - 1);
    if ok then Analyze(cfg, w, st1) else (st1, false)
  }

  /** After as many passes as there were waiting candidates, nothing waits any more ... */
  lemma {:induction false} PassesDrain(cfg: Config, w: World, st: Rec, n: nat)
    requires HeadersComplete(st.codec, st.headers) && Passes(cfg, w, st, n).1
    ensures var r := Passes(cfg, w, st, n).0;
            && HeadersComplete(r.codec, r.headers) && r.headerVersion == st.headerVersion
            && |Waiting(r)| <= (if |Waiting(st)| > n then |Waiting(st)| - n else 0)
            && (n > 0 ==> !r.dirty)
  {
    hide Analyze, Waiting;
    if n > 0 {
      PassesDrain(cfg, w, st, n - 1);
      AnalyzePass(cfg, w, Passes(cfg, w, st, n - 1).0);
    }
  }

  /** ... and one more pass shows the host nothing. */
  lemma PassesFallSilent(cfg: Config, w: World, st: Rec, n: nat)
    requires HeadersComplete(st.codec, st.headers) && n > |Waiting(st)| && Passes(cfg, w, st, n + 1).1
    ensures Passes(cfg, w, st, n + 1).0.out.shown == Passes(cfg, w, st, n).0.out.shown
  {
    hide Analyze, Waiting;
    var r := Passes(cfg, w, st, n).0;
    PassesDrain(cfg, w, st, n);
    AnalyzePass(cfg, w, r);
    assert Waiting(r)[..0] == [] && Streams(r, []) == [];
    assert r.out.shown + [] == r.out.shown;
  }

  // ---------- Voting ----------

  /** The buckets that hold an election, in the order of their best candidates; `i` as in the voting loop. */
  function Elections(candidates: seq<Candidate>, order: seq<nat>, i: nat): (r: seq<nat>)
    requires i <= |order| && Indices(order, |candidates|)
    decreases |order| - i
  {
    if i == |order| then [] else
    var b := Bucket(candidates[order[i]]);
    if BucketSeen(candidates, order, i, b) || |Members(candidates, order, b)| < 2 then Elections(candidates, order, i + 1)
    else [b] + Elections(candidates, order, i + 1)
  }

  /** The voted stream of a bucket: the headers and the voted key slice, under the features of its best candidate. */
  function Voted(cfg: Config, st: Rec, order: seq<nat>, bucket: nat): Shown
    requires Indices(order, |st.candidates|) && Members(st.candidates, order, bucket) != []
  {
    var members := Members(st.candidates, order, bucket);
    Shown(HeaderBytes(st.headers, Required(st.codec)) + VotedSlice(cfg, members), members[0].features, true, st.headerVersion)
  }

  lemma {:induction false} MembersFrom(candidates: seq<Candidate>, order: seq<nat>, i: nat, bucket: nat)
    requires i <= |order| && Indices(order, |candidates|) && !BucketSeen(candidates, order, i, bucket)
    ensures Members(candidates, order[i..], bucket) == Members(candidates, order, bucket)
  {
    if i == 0 {
      assert order[0..] == order;
    } else {
      MembersFrom(candidates, order, i - 1, bucket);
      var tail := order[i - 1..];
      assert tail[0] == order[i - 1] && tail[1..] == order[i..];
      assert Bucket(candidates[order[i - 1]]) != bucket;
    }
  }

  lemma MembersHere(candidates: seq<Candidate>, order: seq<nat>, i: nat)
    requires i < |order| && Indices(order, |candidates|)
    requires !BucketSeen(candidates, order, i, Bucket(candidates[order[i]]))
    ensures var members := Members(candidates, order, Bucket(candidates[order[i]]));
            members != [] && members[0] == candidates[order[i]]
                && members == Members(candidates, order[i..], Bucket(candidates[order[i]]))
  {
    MembersFrom(candidates, order, i, Bucket(candidates[order[i]]));
    assert order[i..][0] == order[i];
  }

  lemma {:induction false} ElectionsHeld(candidates: seq<Candidate>, order: seq<nat>, i: nat)
    requires i <= |order| && Indices(order, |candidates|)
    ensures forall b :: b in Elections(candidates, order, i) <==>
              |Members(candidates, order, b)| >= 2 && !BucketSeen(candidates, order, i, b)
    ensures Distinct(Elections(candidates, order, i))
    decreases |order| - i
  {
    if i == |order| {
      forall b | |Members(candidates, order, b)| >= 2 ensures BucketSeen(candidates, order, i, b) {
        MemberSeen(candidates, order, b);
      }
    } else {
      ElectionsHeld(candidates, order, i + 1);
      SeenNext(candidates, order, i);
      hide BucketSeen, Members, Bucket;
    }
  }

  lemma SeenNext(candidates: seq<Candidate>, order: seq<nat>, i: nat)
    requires i < |order| && Indices(order, |candidates|)
    ensures forall b :: BucketSeen(candidates, order, i + 1, b) <==>
              BucketSeen(candidates, order, i, b) || b == Bucket(candidates[order[i]])
  {
    hide Bucket;
    forall b ensures BucketSeen(candidates, order, i + 1, b) <==> BucketSeen(candidates, order, i, b) || b == Bucket(candidates[order[i]]) {
      if BucketSeen(candidates, order, i + 1, b) {
        var k :| 0 <= k < i + 1 && Bucket(candidates[order[k]]) == b;
        assert k < i || k == i;
      }
      if BucketSeen(candidates, order, i, b) {
        var k :| 0 <= k < i && Bucket(candidates[order[k]]) == b;
        assert k < i + 1;
      }
      if b == Bucket(candidates[order[i]]) {
        assert i < i + 1 && Bucket(candidates[order[i]]) == b;
      }
    }
  }

  lemma {:induction false} MemberSeen(candidates: seq<Candidate>, order: seq<nat>, bucket: nat)
    requires Indices(order, |candidates|) && Members(candidates, order, bucket) != []
    ensures BucketSeen(candidates, order, |order|, bucket)
  {
    if Bucket(candidates[order[0]]) != bucket {
      MemberSeen(candidates, order[1..], bucket);
      var k :| 0 <= k < |order[1..]| && Bucket(candidates[order[1..][k]]) == bucket;
      assert Bucket(candidates[order[k + 1]]) == bucket;
    }
  }

  /** One voted stream for each election, in order. */
  predicate VotesShown(cfg: Config, st: Rec, order: seq<nat>, buckets: seq<nat>, new': seq<Shown>)
    requires Indices(order, |st.candidates|)
  {
    && |new'| == |buckets|
    && forall k :: 0 <= k < |buckets| ==>
         Members(st.candidates, order, buckets[k]) != [] && new'[k] == Voted(cfg, st, order, buckets[k])
  }

  lemma VotesShownFirst(cfg: Config, st: Rec, st1: Rec, order: seq<nat>, b: nat, buckets: seq<nat>, rest: seq<Shown>)
    requires Indices(order, |st.candidates|) && Members(st.candidates, order, b) != []
    requires st1.candidates == st.candidates && st1.headers == st.headers && st1.codec == st.codec
    requires st1.headerVersion == st.headerVersion
    requires VotesShown(cfg, st1, order, buckets, rest)
    ensures VotesShown(cfg, st, order, [b] + buckets, [Voted(cfg, st, order, b)] + rest)
  {
    hide Members, VotedSlice, HeaderBytes;
  }

  /** A successful vote holds exactly the elections, each bucket of two or more candidates having one. */
  lemma {:induction false} VoteShows(cfg: Config, w: World, st: Rec, order: seq<nat>, i: nat)
    requires i <= |order| && Indices(order, |st.candidates|) && Vote(cfg, w, st, order, i).1
    ensures var r := Vote(cfg, w, st, order, i).0;
            && |st.out.shown| <= |r.out.shown| && r.out.shown[..|st.out.shown|] == st.out.shown
            && VotesShown(cfg, st, order, Elections(st.candidates, order, i), r.out.shown[|st.out.shown|..])
    decreases |order| - i
  {
    hide Emit, HeaderBytes, Members, VotedSlice, BucketSeen, Bucket, VotesShown;
    if i == |order| {
      NoVotes(cfg, st, order);
    } else {
      var c := st.candidates[order[i]];
      var b := Bucket(c);
      if !BucketSeen(st.candidates, order, i, b) {
        MembersHere(st.candidates, order, i);
      }
      var members := Members(st.candidates, order[i..], b);
      if BucketSeen(st.candidates, order, i, b) || |members| < 2 {
        VoteShows(cfg, w, st, order, i + 1);
      } else {
        var data := HeaderBytes(st.headers, Required(st.codec)) + VotedSlice(cfg, members);
        EmitOk(cfg, w, st, data, c.features, true);
        var st1 := Emit(cfg, w, st, data, c.features, true).0;
        VoteShows(cfg, w, st1, order, i + 1);
        var r := Vote(cfg, w, st, order, i).0;
        var shown, rest := r.out.shown, r.out.shown[|st1.out.shown|..];
        assert Voted(cfg, st, order, b) == Shown(data, c.features, true, st.headerVersion);
        VotesShownFirst(cfg, st, st1, order, b, Elections(st.candidates, order, i + 1), rest);
        assert shown[..|st.out.shown|] == shown[..|st1.out.shown|][..|st.out.shown|];
        assert shown[|st.out.shown|..] == [Voted(cfg, st, order, b)] + rest by {
          assert shown[|st.out.shown|] == shown[..|st1.out.shown|][|st.out.shown|];
        }
      }
    }
  }

  lemma NoVotes(cfg: Config, st: Rec, order: seq<nat>)
    requires Indices(order, |st.candidates|)
    ensures VotesShown(cfg, st, order, [], st.out.shown[|st.out.shown|..])
  {
  }

  /** Every bucket of two or more candidates holds exactly one election, and no other bucket holds any. */
  lemma ElectionPerBucket(candidates: seq<Candidate>, order: seq<nat>)
    requires Indices(order, |candidates|)
    ensures Distinct(Elections(candidates, order, 0))
    ensures forall b :: b in Elections(candidates, order, 0) <==> |Members(candidates, order, b)| >= 2
  {
    ElectionsHeld(candidates, order, 0);
  }

  lemma {:induction false} BucketsPartitionRanking(candidates: seq<Candidate>, order: seq<nat>, c: Candidate, bucket: nat)
    requires Indices(order, |candidates|)
    ensures multiset(Members(candidates, order, bucket))[c] ==
            if Bucket(c) == bucket then multiset(ByRank(candidates, order))[c] else 0
  {
    if order != [] {
      BucketsPartitionRanking(candidates, order[1..], c, bucket);
      var first := candidates[order[0]];
      assert ByRank(candidates, order) == [first] + ByRank(candidates, order[1..]);
      if Bucket(first) == bucket {
        assert Members(candidates, order, bucket) == [first] + Members(candidates, order[1..], bucket);
      } else {
        assert Members(candidates, order, bucket) == Members(candidates, order[1..], bucket);
      }
    }
  }

  lemma {:induction false} ByRankAppend(candidates: seq<Candidate>, a: seq<nat>, b: seq<nat>)
    requires Indices(a, |candidates|) && Indices(b, |candidates|)
    ensures Indices(a + b, |candidates|) && ByRank(candidates, a + b) == ByRank(candidates, a) + ByRank(candidates, b)
  {
    if a == [] {
      assert a + b == b;
    } else {
      ByRankAppend(candidates, a[1..], b);
      assert (a + b)[0] == a[0] && (a + b)[1..] == a[1..] + b;
      hide ByRank;
      ByRankFirst(candidates, a);
      ByRankFirst(candidates, a + b);
    }
  }

  lemma ByRankFirst(candidates: seq<Candidate>, order: seq<nat>)
    requires order != [] && Indices(order, |candidates|)
    ensures Indices(order[1..], |candidates|) && ByRank(candidates, order) == [candidates[order[0]]] + ByRank(candidates, order[1..])
  {
  }

  lemma MultisetCancel(a: multiset<nat>, b: multiset<nat>, x: nat)
    requires a + multiset{x} == b + multiset{x}
    ensures a == b
  {
    assert a == (a + multiset{x}) - multiset{x};
    assert b == (b + multiset{x}) - multiset{x};
  }

  lemma MultisetAround(front: seq<nat>, x: nat, back: seq<nat>)
    ensures multiset(front + [x] + back) == multiset(front + back) + multiset{x}
  {
  }

  lemma IndicesAround(front: seq<nat>, x: nat, back: seq<nat>, n: nat)
    requires Indices(front + [x] + back, n)
    ensures Indices(front, n) && Indices(back, n)
  {
    var all := front + [x] + back;
    assert forall k :: 0 <= k < |front| ==> front[k] == all[k];
    assert forall k :: 0 <= k < |back| ==> back[k] == all[|front| + 1 + k];
  }

  /** Taking the highest number out of a permutation leaves a permutation of the others. */
  lemma WithoutHighest(order: seq<nat>, n: nat) returns (front: seq<nat>, back: seq<nat>)
    requires n > 0 && Indices(order, n) && multiset(order) == UpTo(n)
    ensures order == front + [n - 1] + back && Indices(front, n) && Indices(back, n)
    ensures Indices(front + back, n - 1) && multiset(front + back) == UpTo(n - 1)
  {
    hide Indices;
    var before := UpTo(n - 1);
    assert multiset(order) == before + multiset{n - 1};
    hide UpTo;
    assert n - 1 in multiset(order);
    var k :| 0 <= k < |order| && order[k] == n - 1;
    front, back := order[..k], order[k + 1..];
    assert order == front + [n - 1] + back;
    MultisetAround(front, n - 1, back);
    MultisetCancel(multiset(front + back), before, n - 1);
    IndicesAround(front, n - 1, back, n);
    UpToBounds(front + back, n - 1);
  }

  lemma UpToBounds(order: seq<nat>, n: nat)
    requires multiset(order) == UpTo(n)
    ensures Indices(order, n)
  {
    hide UpTo;
    forall j | 0 <= j < |order| ensures order[j] < n {
      assert order[j] in multiset(order);
      UpToCounts(n, order[j]);
    }
  }

  lemma MultisetOfThree(a: seq<Candidate>, c: Candidate, b: seq<Candidate>)
    ensures multiset(a + [c] + b) == multiset(a + b) + multiset{c}
  {
  }

  /** A permutation of the first `n` candidates lists exactly those. */
  lemma {:induction false} ByRankListsAll(candidates: seq<Candidate>, order: seq<nat>, n: nat)
    requires n <= |candidates| && Indices(order, n) && multiset(order) == UpTo(n)
    ensures multiset(ByRank(candidates, order)) == multiset(candidates[..n])
    decreases n
  {
    hide ByRank, UpTo;
    if n == 0 {
      NothingRanked(candidates, order);
    } else {
      var front, back := WithoutHighest(order, n);
      ByRankListsAll(candidates, front + back, n - 1);
      OneMore(candidates, front, back, n);
    }
  }

  lemma OneMore(candidates: seq<Candidate>, front: seq<nat>, back: seq<nat>, n: nat)
    requires 0 < n <= |candidates| && Indices(front, |candidates|) && Indices(back, |candidates|)
    requires Indices(front + back, |candidates|) && Indices(front + [n - 1] + back, |candidates|)
    requires multiset(ByRank(candidates, front + back)) == multiset(candidates[..n - 1])
    ensures multiset(ByRank(candidates, front + [n - 1] + back)) == multiset(candidates[..n])
  {
    hide ByRank, Indices;
    OneRanked(candidates, front, n - 1, back);
    FirstOnes(candidates, n);
    SameAndOne(multiset(ByRank(candidates, front + back)), multiset(candidates[..n - 1]),
               multiset(ByRank(candidates, front + [n - 1] + back)), multiset(candidates[..n]), candidates[n - 1]);
  }

  lemma SameAndOne(a: multiset<Candidate>, b: multiset<Candidate>, a1: multiset<Candidate>, b1: multiset<Candidate>, c: Candidate)
    requires a == b && a1 == a + multiset{c} && b1 == b + multiset{c}
    ensures a1 == b1
  {
  }

  lemma NothingRanked(candidates: seq<Candidate>, order: seq<nat>)
    requires Indices(order, |candidates|) && multiset(order) == UpTo(0)
    ensures multiset(ByRank(candidates, order)) == multiset(candidates[..0])
  {
    assert |multiset(order)| == |order|;
  }

  lemma FirstOnes(candidates: seq<Candidate>, n: nat)
    requires 0 < n <= |candidates|
    ensures multiset(candidates[..n]) == multiset(candidates[..n - 1]) + multiset{candidates[n - 1]}
  {
    assert candidates[..n] == candidates[..n - 1] + [candidates[n - 1]];
  }

  lemma OneRanked(candidates: seq<Candidate>, front: seq<nat>, x: nat, back: seq<nat>)
    requires x < |candidates| && Indices(front, |candidates|) && Indices(back, |candidates|)
    ensures Indices(front + [x] + back, |candidates|) && Indices(front + back, |candidates|)
    ensures multiset(ByRank(candidates, front + [x] + back)) == multiset(ByRank(candidates, front + back)) + multiset{candidates[x]}
  {
    hide ByRank;
    ByRankAppend(candidates, front, back);
    ByRankAppend(candidates, front, [x]);
    ByRankAppend(candidates, front + [x], back);
    RankOne(candidates, x);
    MultisetOfThree(ByRank(candidates, front), candidates[x], ByRank(candidates, back));
  }

  lemma RankOne(candidates: seq<Candidate>, x: nat)
    requires x < |candidates|
    ensures ByRank(candidates, [x]) == [candidates[x]]
  {
  }

  /** The buckets partition the candidates: each stands in its own bucket exactly as often as in the store. */
  lemma BucketsPartition(candidates: seq<Candidate>, c: Candidate, bucket: nat)
    ensures multiset(Members(candidates, Ranked(candidates), bucket))[c] ==
            if Bucket(c) == bucket then multiset(candidates)[c] else 0
  {
    hide Members, ByRank, Bucket, Ranked;
    BucketsPartitionRanking(candidates, Ranked(candidates), c, bucket);
    RankedSorted(candidates);
    ByRankListsAll(candidates, Ranked(candidates), |candidates|);
    assert candidates[..|candidates|] == candidates;
  }

  function ByRank(candidates: seq<Candidate>, order: seq<nat>): (r: seq<Candidate>)
    requires Indices(order, |candidates|)
  {
    if order == [] then [] else [candidates[order[0]]] + ByRank(candidates, order[1..])
  }

  // ---------- The voted byte ----------

  predicate Votes(members: seq<Candidate>, k: nat, pos: nat)
    requires k < |members|
  {
    pos < members[k].keySize
  }

  /** Member `k` shows `v`; no byte shown by the first `n` members has a higher tally, and none shown by a better
      ranked one has the same. */
  predicate LeadsAt(cfg: Config, members: seq<Candidate>, pos: nat, n: nat, v: byte, k: nat)
    requires n <= |members|
  {
    && k < n && Votes(members, k, pos) && Ballot(members[k], pos) == v
    && (forall j :: 0 <= j < k && Votes(members, j, pos) ==>
          Tally(cfg, members, pos, Ballot(members[j], pos)) < Tally(cfg, members, pos, v))
    && (forall j :: 0 <= j < n && Votes(members, j, pos) ==>
          Tally(cfg, members, pos, Ballot(members[j], pos)) <= Tally(cfg, members, pos, v))
  }

  predicate Leads(cfg: Config, members: seq<Candidate>, pos: nat, n: nat, v: byte)
    requires n <= |members|
  {
    exists k :: 0 <= k < n && LeadsAt(cfg, members, pos, n, v, k)
  }

  /** The newcomer takes the lead. */
  lemma TakesLead(cfg: Config, members: seq<Candidate>, pos: nat, n: nat, before: Option<byte>)
    requires n < |members| && Votes(members, n, pos)
    requires before.Some? ==> Leads(cfg, members, pos, n, before.value)
                              && Tally(cfg, members, pos, Ballot(members[n], pos)) > Tally(cfg, members, pos, before.value)
    requires before.None? ==> forall k :: 0 <= k < n ==> !Votes(members, k, pos)
    ensures Leads(cfg, members, pos, n + 1, Ballot(members[n], pos))
  {
    hide Tally, Ballot;
    if before.Some? {
      var k :| 0 <= k < n && LeadsAt(cfg, members, pos, n, before.value, k);
    }
    assert LeadsAt(cfg, members, pos, n + 1, Ballot(members[n], pos), n);
  }

  /** The old leader keeps the lead. */
  lemma KeepsLead(cfg: Config, members: seq<Candidate>, pos: nat, n: nat, v: byte)
    requires n < |members| && Leads(cfg, members, pos, n, v)
    requires Votes(members, n, pos) ==> Tally(cfg, members, pos, Ballot(members[n], pos)) <= Tally(cfg, members, pos, v)
    ensures Leads(cfg, members, pos, n + 1, v)
  {
    hide Tally, Ballot;
    var k :| 0 <= k < n && LeadsAt(cfg, members, pos, n, v, k);
    assert LeadsAt(cfg, members, pos, n + 1, v, k);
  }

  lemma {:induction false} LeaderLeads(cfg: Config, members: seq<Candidate>, pos: nat, n: nat)
    requires n <= |members|
    ensures var leader := Leader(cfg, members, pos, n);
            && (leader.None? <==> forall k :: 0 <= k < n ==> !Votes(members, k, pos))
            && (leader.Some? ==> Leads(cfg, members, pos, n, leader.value))
  {
    hide Tally, Leads;
    if n > 0 {
      LeaderLeads(cfg, members, pos, n - 1);
      var before := Leader(cfg, members, pos, n - 1);
      if Votes(members, n - 1, pos)
         && (before.None? || Tally(cfg, members, pos, Ballot(members[n - 1], pos)) > Tally(cfg, members, pos, before.value)) {
        TakesLead(cfg, members, pos, n - 1, before);
      } else if before.Some? {
        KeepsLead(cfg, members, pos, n - 1, before.value);
      }
    }
  }

  lemma {:induction false} UnshownHasNoTally(cfg: Config, members: seq<Candidate>, pos: nat, value: byte)
    requires forall k :: 0 <= k < |members| ==> !(Votes(members, k, pos) && Ballot(members[k], pos) == value)
    ensures Tally(cfg, members, pos, value) == 0.0
  {
    if members != [] {
      var front, last := members[..|members| - 1], |members| - 1;
      assert !(Votes(members, last, pos) && Ballot(members[last], pos) == value);
      forall k | 0 <= k < |front| ensures !(Votes(front, k, pos) && Ballot(front[k], pos) == value) {
        assert !(Votes(members, k, pos) && Ballot(members[k], pos) == value);
      }
      UnshownHasNoTally(cfg, front, pos, value);
    }
  }

  lemma {:induction false} LongestIsReached(members: seq<Candidate>)
    requires members != []
    ensures forall k :: 0 <= k < |members| ==> members[k].keySize <= LongestKey(members)
    ensures exists k :: 0 <= k < |members| && members[k].keySize == LongestKey(members)
  {
    if |members| > 1 {
      var rest := members[1..];
      LongestIsReached(rest);
      var k :| 0 <= k < |rest| && rest[k].keySize == LongestKey(rest);
      assert members[k + 1] == rest[k];
      assert members[0].keySize <= LongestKey(members);
      assert forall j :: 0 < j < |members| ==> members[j] == rest[j - 1];
    }
  }

  /** The voted byte is one a member shows at the place; no byte value at all has more weight behind it, and among
      the heaviest it is the one shown by the best-ranked member. */
  lemma VotedByteWins(cfg: Config, members: seq<Candidate>, pos: nat)
    requires pos < LongestKey(members)
    ensures Leads(cfg, members, pos, |members|, VotedByte(cfg, members, pos))
    ensures forall u: byte :: Tally(cfg, members, pos, u) <= Tally(cfg, members, pos, VotedByte(cfg, members, pos))
  {
    LongestIsReached(members);
    var k :| 0 <= k < |members| && members[k].keySize == LongestKey(members);
    assert Votes(members, k, pos);
    LeaderLeads(cfg, members, pos, |members|);
    var v := VotedByte(cfg, members, pos);
    forall u: byte ensures Tally(cfg, members, pos, u) <= Tally(cfg, members, pos, v) {
      if forall j :: 0 <= j < |members| ==> !(Votes(members, j, pos) && Ballot(members[j], pos) == u) {
        UnshownHasNoTally(cfg, members, pos, u);
      }
    }
  }
}
