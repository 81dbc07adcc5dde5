// The image-recovery engine as the program runs it (src/recovery.c): every method leaves the state, the
// answer and the output that RecoverySpec.dfy and RecoveryRuns.dfy tell.
module Recovery {
  import opened Bytes
  import opened TsPackets
  import opened AnnexB
  import opened RankModels
  import opened PsiContexts
  import opened Framing
  import opened RecoveryInPlace
  import T = PsiTables
  import S = RecoverySpec
  import R = RecoveryRuns

  class SfRecovery {
    const config: S.Config
    const world: S.World
    const psi: PsiContext
    const pending: array<byte>
    const pes: array<byte>
    const candidates: array<S.Candidate>
    var pendingSize: nat
    var pesSize: nat
    var dropping: bool
    var failed: bool
    var lastCc: int
    var pid: int
    var codec: S.Codec
    var current: Values
    var headers: S.Headers
    var headerVersion: nat
    var count: nat
    var retained: int
    var dirty: bool
    var previewSize: nat
    var counters: S.Counters
    var progress: S.Progress
    var bytesReceived: nat
    var discardedBytes: nat
    var calls: nat
    ghost var skipping: bool
    ghost var resyncs: nat
    ghost var shown: seq<S.Shown>
    ghost var numbers: seq<nat>
    ghost var records: seq<S.Features>
    ghost var images: seq<S.Image>

    ghost function Repr(): set<object>
    {
      {this, psi, pending, pes, candidates}
    }

    ghost predicate Valid()
      reads this, Repr()
    {
      && pending != pes
      && pending.Length == PACKET_SIZE && pes.Length == config.maxBytes / 2 && candidates.Length == S.MAX_CANDIDATES
      && pendingSize < PACKET_SIZE && pesSize <= pes.Length && count <= S.MAX_CANDIDATES
      && FramerValid(FramerView())
    }

    ghost function FramerView(): FramerState
      requires pendingSize <= pending.Length
      reads this`pendingSize, this`skipping, this`discardedBytes, this`resyncs, pending
    {
      FramerState(pending[..pendingSize], skipping, discardedBytes, resyncs)
    }

    ghost function RecView(): (st: S.Rec)
      requires Valid()
      reads this, Repr()
      ensures |st.candidates| == count
    {
      S.Rec(psi.View(), pid, codec, pes[..pesSize], dropping, lastCc, current, headers, headerVersion, candidates[..count],
            retained, dirty, previewSize, counters, progress, S.Output(calls, shown, records, images, numbers))
    }

    /** The plain fields in the view. */
    lemma Fields()
      requires Valid()
      ensures var st := RecView();
              && st.codec == codec && st.headers == headers && st.dirty == dirty && st.dropping == dropping
              && st.previewSize == previewSize && |st.pes| == pesSize
    {
      hide PsiContext.View;
    }

    ghost function View(): R.Ctx
      requires Valid()
      reads this, Repr()
    {
      R.Ctx(Fed(RecView(), FramerView(), failed), bytesReceived)
    }

    /** `sf_recovery_create`, the configuration having passed. */
    constructor (config: S.Config, world: S.World)
      ensures Valid() && fresh(Repr())
      ensures this.config == config && this.world == world
      ensures View() == R.InitialCtx(config)
    {
      hide PsiContext.View, R.InitialCtx;
      this.config, this.world := config, world;
      pending := new byte[PACKET_SIZE](_ => 0);
      pes := new byte[config.maxBytes / 2](_ => 0);
      candidates := new S.Candidate[S.MAX_CANDIDATES];
      pendingSize, pesSize, count, retained, previewSize, headerVersion := 0, 0, 0, 0, 0, 0;
      dropping, failed, dirty, lastCc, pid, codec := false, false, false, -1, -1, S.H264;
      current, headers := ZeroValues(), [[], [], []];
      counters, progress := S.ZeroCounters(), S.Progress(S.WaitService, 0, 0, 2, 0);
      bytesReceived, discardedBytes, calls := 0, 0, 0;
      skipping, resyncs, shown, records, images, numbers := false, 0, [], [], [], [];
      psi := new PsiContext();
      new;
      assert FramerView().pending == [];
      assert Valid();
      hide FramerValid, FramerView, RecView, Valid;
      ResetBlank();
    }

    /** The first reset. */
    method ResetBlank()
      requires Valid() && pesSize == 0 && count == 0 && psi.View() == T.InitialPsi()
      requires !dropping && !dirty && lastCc == -1 && pid == -1 && codec == S.H264 && headers == [[], [], []]
      requires headerVersion == retained == previewSize == calls == 0 && current == ZeroValues() && counters == S.ZeroCounters()
      requires progress == S.Progress(S.WaitService, 0, 0, 2, 0) && shown == [] && records == [] && images == [] && numbers == []
      modifies Repr()
      ensures Valid() && View() == R.InitialCtx(config)
    {
      BlankView();
      hide S.ResetRec, PsiContext.View, FramerValid;
      Reset();
    }

    /** The state before the first reset. */
    lemma BlankView()
      requires Valid() && pesSize == 0 && count == 0 && psi.View() == T.InitialPsi()
      requires !dropping && !dirty && lastCc == -1 && pid == -1 && codec == S.H264 && headers == [[], [], []]
      requires headerVersion == retained == previewSize == calls == 0 && current == ZeroValues() && counters == S.ZeroCounters()
      requires progress == S.Progress(S.WaitService, 0, 0, 2, 0) && shown == [] && records == [] && images == [] && numbers == []
      ensures RecView() == S.Rec(T.InitialPsi(), -1, S.H264, [], false, -1, ZeroValues(), [[], [], []], 0, [], 0, false, 0, S.ZeroCounters(),
                                 S.Progress(S.WaitService, 0, 0, 2, 0), S.Output(0, [], [], [], []))
    {
      hide PsiContext.View, FramerValid;
      assert pes[..0] == [] && candidates[..0] == [];
    }

    // ---------- Status ----------

    /** `update_status`. */
    method UpdateStatus()
      requires Valid()
      modifies this`progress
      ensures Valid() && RecView() == S.Update(old(RecView()))
    {
      hide PsiContext.View, FramerValid;
      var required := if codec == S.H265 then 3 else 2;
      var found := 0;
      for i := 0 to required
        invariant found == S.Found(headers, i)
      {
        if headers[i] != [] {
          found := found + 1;
        }
      }
      ghost var before := RecView();
      var phase, percent := S.WaitService, 0;
      if pid >= 0 {
        phase, percent := S.WaitHeaders, 20 + 40 * found / required;
      }
      if pid >= 0 && found == required {
        phase, percent := S.WaitKeyframe, 60;
        if count > 0 {
          phase, percent := S.ReadyToDecode, 80;
        }
        if count > 0 && counters.decodeAttempts > 0 {
          phase, percent := S.WaitUsableImage, 90;
        }
      }
      if counters.frameVersion > 0 {
        phase, percent := S.ImageReady, 100;
      }
      progress := S.Progress(phase, percent, found, required, retained + pesSize);
      assert psi.View() == before.psi && pes[..pesSize] == before.pes && candidates[..count] == before.candidates;
    }

    // ---------- Emission ----------

    /** `emit_candidate`. */
    method EmitCandidate(data: seq<byte>, f: S.Features, voted: bool) returns (ok: bool)
      requires Valid()
      modifies this`counters, this`progress, this`calls, this`shown, this`numbers, this`images
      ensures Valid() && (RecView(), ok) == S.Emit(config, world, old(RecView()), data, f, voted)
    {
      hide S.Decode, PsiContext.View, FramerValid;
      ok := world.candidateOk(calls);
      calls, shown, numbers := calls + 1, shown + [S.Shown(data, f, voted, headerVersion)], numbers + [calls];
      if ok && config.decode && (counters.frameVersion == 0 || f.score > counters.bestScore) {
        DecodeCandidate(data, f);
      }
    }

    /** The decoder's part of `emit_candidate`. */
    method DecodeCandidate(data: seq<byte>, f: S.Features)
      requires Valid()
      modifies this`counters, this`progress, this`calls, this`images
      ensures Valid() && RecView() == S.Decode(config, world, old(RecView()), data, f)
    {
      hide S.Accept, PsiContext.View, FramerValid;
      ghost var before := RecView();
      var image := world.decode(calls, data, f.codec);
      calls := calls + 1;
      counters := counters.(decodeAttempts := counters.decodeAttempts + 1);
      assert psi.View() == before.psi && pes[..pesSize] == before.pes && candidates[..count] == before.candidates;
      if image.Some? {
        counters := counters.(decodedImages := counters.decodedImages + 1);
        if image.value >= config.minQuality {
          AcceptImage(f.score, image.value);
        }
      }
    }

    method AcceptImage(score: real, quality: real)
      requires Valid()
      modifies this`counters, this`progress, this`images
      ensures Valid() && RecView() == S.Accept(old(RecView()), score, quality)
    {
      hide S.Update, PsiContext.View, FramerValid;
      ghost var before := RecView();
      counters := counters.(frameVersion := counters.frameVersion + 1, bestScore := score, imageQuality := quality);
      images := images + [S.Image(counters.frameVersion, score, quality)];
      assert psi.View() == before.psi && pes[..pesSize] == before.pes && candidates[..count] == before.candidates;
      UpdateStatus();
    }

    /** The headers, one behind the other. */
    method CopyHeaders(required: nat) returns (data: seq<byte>)
      requires required <= 3
      ensures data == S.HeaderBytes(headers, required)
    {
      data := [];
      for h := 0 to required
        invariant data == S.HeaderBytes(headers, h)
      {
        data := data + headers[h];
      }
    }

    /** One candidate of the emission loop: shown and marked, unless this header version has seen it. */
    method EmitOne(k: nat, required: nat) returns (ok: bool, shownOne: bool)
      requires Valid() && k < count && required == S.Required(codec)
      modifies this`counters, this`progress, this`calls, this`shown, this`numbers, this`images, candidates
      ensures Valid() && (RecView(), ok, shownOne) == Emitted(config, world, old(RecView()), k)
    {
      hide S.Emit, S.HeaderBytes, PsiContext.View, FramerValid;
      ghost var st := RecView();
      var c := candidates[k];
      assert c == st.candidates[k];
      if c.emitted == headerVersion {
        return true, false;
      }
      var data := CopyHeaders(required);
      ok := EmitCandidate(data + c.data, c.features, false);
      if !ok {
        return false, false;
      }
      Mark(k, c.(emitted := headerVersion));
      return true, true;
    }

    method Mark(k: nat, c: S.Candidate)
      requires Valid() && k < count
      modifies candidates
      ensures Valid() && RecView() == old(RecView()).(candidates := old(RecView()).candidates[k := c])
    {
      hide PsiContext.View, FramerValid;
      ghost var before := RecView();
      candidates[k] := c;
      assert psi.View() == before.psi && pes[..pesSize] == before.pes && candidates[..count] == before.candidates[k := c];
    }

    /** The emission loop of `analyze`. */
    method EmitRanked(order: array<nat>, required: nat) returns (ok: bool)
      requires Valid() && order !in Repr() && order.Length == S.MAX_CANDIDATES && required == S.Required(codec)
      requires forall k :: 0 <= k < count ==> order[k] < count
      modifies this`counters, this`progress, this`calls, this`shown, this`numbers, this`images, candidates
      ensures Valid() && (RecView(), ok) == S.EmitRanked(config, world, old(RecView()), order[..count], 0, 0)
    {
      hide Emitted, PsiContext.View, FramerValid, RecView, S.EmitRanked;
      ghost var st, places := RecView(), order[..count];
      var i, emitted := 0, 0;
      ok := true;
      while i < count && emitted < config.maxCandidates
        invariant Valid() && i <= count
        invariant S.EmitRanked(config, world, RecView(), places, i, emitted) == S.EmitRanked(config, world, st, places, 0, 0)
      {
        assert order[i] == places[i];
        EmitTurn(config, world, RecView(), places, i, emitted);
        var one;
        ok, one := EmitOne(order[i], required);
        if !ok {
          return;
        }
        if one {
          emitted := emitted + 1;
        }
        i := i + 1;
      }
      EmitEnds(config, world, RecView(), places, i, emitted);
    }

    // ---------- Voting ----------

    /** Whether a better candidate has opened the bucket already. */
    method SeenEarlier(order: array<nat>, i: nat, bucket: nat) returns (earlier: bool)
      requires Valid() && order.Length == S.MAX_CANDIDATES && i <= count
      requires forall k :: 0 <= k < count ==> order[k] < count
      ensures earlier == S.BucketSeen(candidates[..count], order[..count], i, bucket)
    {
      hide PsiContext.View, FramerValid;
      earlier := false;
      for j := 0 to i
        invariant earlier == exists k :: 0 <= k < j && S.Bucket(candidates[..count][order[..count][k]]) == bucket
      {
        if (candidates[order[j]].keySize + 93) / 188 == bucket {
          assert S.Bucket(candidates[..count][order[..count][j]]) == bucket;
          earlier := true;
        }
      }
    }

    /** The members of a bucket from place `i` on, and their longest key slice. */
    method GatherMembers(order: array<nat>, i: nat, bucket: nat) returns (members: seq<S.Candidate>, max: nat)
      requires Valid() && order.Length == S.MAX_CANDIDATES && i <= count
      requires forall k :: 0 <= k < count ==> order[k] < count
      ensures members == S.Members(candidates[..count], order[..count][i..], bucket)
      ensures max == S.LongestKey(members)
    {
      hide PsiContext.View, FramerValid;
      ghost var all, places := candidates[..count], order[..count];
      hide S.Members, S.LongestKey;
      members, max := [], 0;
      LongestOfNone();
      for j := i to count
        invariant S.Members(all, places[i..], bucket) == members + S.Members(all, places[j..], bucket)
        invariant max == S.LongestKey(members)
      {
        var other := candidates[order[j]];
        assert other == all[places[j]];
        MembersTurn(all, places, j, bucket, members);
        if (other.keySize + 93) / 188 == bucket {
          LongestAppend(members, other);
          members := members + [other];
          if other.keySize > max {
            max := other.keySize;
          }
        }
      }
      NoMembers(all, places, bucket, members);
    }

    /** One turn of the voting loop: a bucket seen for the first time votes if it has two members. */
    method VoteBucket(order: array<nat>, i: nat, required: nat) returns (ok: bool)
      requires Valid() && order !in Repr() && order.Length == S.MAX_CANDIDATES && required == S.Required(codec)
      requires i < count && forall k :: 0 <= k < count ==> order[k] < count
      modifies this`counters, this`progress, this`calls, this`shown, this`numbers, this`images
      ensures Valid()
      ensures (RecView(), ok) == S.VoteTurn(config, world, old(RecView()), order[..count], i)
    {
      hide S.Emit, S.HeaderBytes, S.Members, S.VotedSlice, S.BucketSeen, S.LongestKey, PsiContext.View, FramerValid;
      var c := candidates[order[i]];
      assert c == RecView().candidates[order[..count][i]];
      var bucket := (c.keySize + 93) / 188;
      var earlier := SeenEarlier(order, i, bucket);
      if earlier {
        return true;
      }
      var members, max := GatherMembers(order, i, bucket);
      if |members| < 2 {
        return true;
      }
      var data := CopyHeaders(required);
      var slice := VoteSlice(config, members, max);
      ok := EmitCandidate(data + slice, c.features, true);
    }

    /** The voting loop of `analyze`. */
    method VoteBuckets(order: array<nat>, required: nat) returns (ok: bool)
      requires Valid() && order !in Repr() && order.Length == S.MAX_CANDIDATES && required == S.Required(codec)
      requires forall k :: 0 <= k < count ==> order[k] < count
      modifies this`counters, this`progress, this`calls, this`shown, this`numbers, this`images
      ensures Valid() && (RecView(), ok) == S.Vote(config, world, old(RecView()), order[..count], 0)
    {
      hide S.VoteTurn, PsiContext.View, FramerValid, RecView;
      ghost var st, places := RecView(), order[..count];
      ok := true;
      for i := 0 to count
        invariant Valid() && ok
        invariant S.Vote(config, world, RecView(), places, i) == S.Vote(config, world, st, places, 0)
      {
        ok := VoteBucket(order, i, required);
        if !ok {
          return;
        }
      }
    }

    /** Whether every parameter set the codec needs is there. */
    method HeadersPresent(required: nat) returns (present: bool)
      requires required == S.Required(codec)
      ensures present == S.HeadersComplete(codec, headers)
    {
      for h := 0 to required
        invariant S.Found(headers, h) == h
      {
        if headers[h] == [] {
          return false;
        }
      }
      present := true;
    }

    /** `analyze`. */
    method Analyze() returns (ok: bool)
      requires Valid()
      modifies this`counters, this`progress, this`calls, this`shown, this`numbers, this`images, this`dirty, candidates
      ensures Valid() && (RecView(), ok) == S.Analyze(config, world, old(RecView()))
    {
      hide S.EmitRanked, S.Vote, S.Ranked, S.HeadersComplete, PsiContext.View, FramerValid;
      var required := if codec == S.H265 then 3 else 2;
      var present := HeadersPresent(required);
      if !present {
        return true;
      }
      var order := RankCandidates();
      ok := EmitRanked(order, required);
      if ok && config.vote && dirty {
        ok := VoteBuckets(order, required);
      }
      if ok {
        SettleVote();
      }
    }

    method SettleVote()
      requires Valid()
      modifies this`dirty
      ensures Valid() && RecView() == old(RecView()).(dirty := false)
    {
      hide PsiContext.View, FramerValid;
      dirty := false;
    }

    method RankCandidates() returns (order: array<nat>)
      requires Valid()
      ensures fresh(order) && order.Length == S.MAX_CANDIDATES
      ensures order[..count] == S.Ranked(RecView().candidates)
      ensures forall k :: 0 <= k < count ==> order[k] < count
    {
      hide S.Order, PsiContext.View, FramerValid;
      var scores := S.Scores(candidates[..count]);
      order := RankOrder(scores);
      assert forall k :: 0 <= k < count ==> order[k] == order[..count][k];
    }

    // ---------- Access units ----------

    /** One turn of the split loop. */
    method ScanUnit(es: seq<byte>, u: Unit, values: Values, data: seq<byte>, keyOffset: nat, keySize: nat)
      returns (values': Values, data': seq<byte>, keyOffset': nat, keySize': nat)
      requires u.at + u.prefix < |es| && u.at <= u.end <= |es|
      modifies this`headers, this`headerVersion, this`dirty
      ensures S.Scan(headers, headerVersion, dirty, values', data', keyOffset', keySize') ==
              S.ScanUnit(codec, S.Scan(old(headers), old(headerVersion), old(dirty), values, data, keyOffset, keySize), es, u)
    {
      values', data', keyOffset', keySize' := values, data, keyOffset, keySize;
      if u.at + u.prefix >= u.end || (codec == S.H265 && u.at + u.prefix + 1 >= u.end) {
        return;
      }
      var t := S.NalType(codec, es[u.at + u.prefix]);
      var unit := es[u.at..u.end];
      var slot := S.HeaderSlot(codec, t);
      if slot.Some? && |unit| > |headers[slot.value]| && |unit| <= S.MAX_HEADER {
        headers := headers[slot.value := unit];
        headerVersion := headerVersion + 1;
        dirty := true;
      }
      if S.IsSlice(codec, t) {
        values' := Plus(values', SLICE_BYTES, |unit| as real);
      }
      if S.IsKey(codec, t) {
        values' := values'[HAS_IDR := 1.0];
        if keySize == 0 {
          keyOffset', keySize' := |data|, |unit|;
          values' := values'[IDR_BYTES := |unit| as real];
        }
      }
      if S.IsKept(codec, t) {
        data' := data + unit;
      }
    }

    /** The part of the PES that is elementary stream. */
    method ElementaryStream() returns (es: seq<byte>)
      requires Valid()
      ensures es == S.Elementary(pes[..pesSize])
    {
      es := pes[..pesSize];
      if pesSize >= 9 && pes[0] == 0 && pes[1] == 0 && pes[2] == 1 {
        var skip := 9 + N(pes[8]);
        es := if skip <= pesSize then es[skip..] else [];
      }
    }

    /** The split loop of `finish_pes`, on an elementary stream. */
    method SplitLoop(es: seq<byte>, start: Values) returns (values: Values, data: seq<byte>, keyOffset: nat, keySize: nat)
      modifies this`headers, this`headerVersion, this`dirty
      ensures S.Scan(headers, headerVersion, dirty, values, data, keyOffset, keySize) ==
              S.ScanUnits(codec, S.Scan(old(headers), old(headerVersion), old(dirty), start, [], 0, 0), es, Split(es))
    {
      hide S.ScanUnit, S.ScanUnits, StartCode, PrefixAt, Units;
      values, data, keyOffset, keySize := start, [], 0, 0;
      ghost var scan := S.Scan(headers, headerVersion, dirty, values, data, keyOffset, keySize);
      var at, prefix := FindStartCode(es, 0);
      while at < |es|
        invariant at < |es| ==> prefix == PrefixAt(es, at) != 0
        invariant S.ScanUnits(codec, scan, es, Split(es)) ==
                  S.ScanUnits(codec, S.Scan(headers, headerVersion, dirty, values, data, keyOffset, keySize), es, Units(es, at, prefix))
        decreases |es| - at
      {
        var end, next := FindStartCode(es, at + prefix);
        ScanFirst(codec, S.Scan(headers, headerVersion, dirty, values, data, keyOffset, keySize), es, at, prefix);
        values, data, keyOffset, keySize := ScanUnit(es, Unit(at, prefix, end), values, data, keyOffset, keySize);
        at, prefix := end, next;
      }
      ScanDone(codec, S.Scan(headers, headerVersion, dirty, values, data, keyOffset, keySize), es, at, prefix);
    }

    /** The scan of the PES gathered so far. */
    method ScanStream() returns (values: Values, data: seq<byte>, keyOffset: nat, keySize: nat)
      requires Valid() && current[PACKETS] != 0.0
      modifies this`headers, this`headerVersion, this`dirty
      ensures Valid()
      ensures S.Scan(headers, headerVersion, dirty, values, data, keyOffset, keySize) == S.ScanPes(old(RecView()))
    {
      hide S.ScanUnits, S.Elementary, Split, PsiContext.View, FramerValid;
      var es := ElementaryStream();
      values, data, keyOffset, keySize :=
        SplitLoop(es, current[PACKET_CONFIDENCE := current[PACKET_CONFIDENCE] / current[PACKETS]]);
    }

    /** Closes the gap a candidate leaves. */
    method RemoveCandidate(i: nat)
      requires Valid() && i < count
      modifies this`count, this`retained, candidates
      ensures Valid() && count == old(count) - 1
      ensures candidates[..count] == old(candidates[..count])[..i] + old(candidates[..count])[i + 1..]
      ensures retained == old(retained) - |old(candidates[i]).data|
    {
      hide PsiContext.View, FramerValid;
      retained := retained - |candidates[i].data|;
      CloseGap(i);
      count := count - 1;
      assert candidates[..count] == old(candidates[..count])[..i] + old(candidates[..count])[i + 1..];
    }

    /** `evict_oldest`. */
    method DropFirst(ghost store: seq<S.Candidate>)
      requires Valid() && store == candidates[..count] && store != []
      modifies this`count, this`retained, candidates
      ensures Valid() && count == old(count) - 1
      ensures candidates[..count] == store[1..] && retained == old(retained) - |store[0].data|
    {
      hide PsiContext.View, FramerValid;
      RemoveCandidate(0);
    }

    /** `memmove(candidates + i, candidates + i + 1, ...)` */
    method CloseGap(i: nat)
      requires Valid() && i < count
      modifies candidates
      ensures forall k :: 0 <= k < count - 1 ==> candidates[k] == if k < i then old(candidates[k]) else old(candidates[k + 1])
    {
      for j := i to count - 1
        invariant forall k :: 0 <= k < candidates.Length ==>
                    candidates[k] == if i <= k < j then old(candidates[k + 1]) else old(candidates[k])
      {
        candidates[j] := candidates[j + 1];
      }
    }

    /** The candidate of an access unit leaves the store, if there is one. */
    method Replace(index: nat) returns (replacement: bool)
      requires Valid()
      modifies this`count, this`retained, candidates
      ensures Valid() && replacement == S.FindIndex(old(candidates[..count]), index, 0).Some?
      ensures var (others, freed) := S.Others(old(candidates[..count]), index);
              RecView() == old(RecView()).(candidates := others, retained := old(retained) - freed)
    {
      hide PsiContext.View, FramerValid, S.FindIndex;
      var place := FindCandidate(index);
      replacement := place.Some?;
      if place.Some? {
        ghost var before := RecView();
        RemoveCandidate(place.value);
        assert psi.View() == before.psi && pes[..pesSize] == before.pes;
      }
    }

    /** The search for the candidate of an access unit. */
    method FindCandidate(index: nat) returns (place: Option<nat>)
      requires Valid()
      ensures place == S.FindIndex(candidates[..count], index, 0)
    {
      hide PsiContext.View, FramerValid;
      for i := 0 to count
        invariant S.FindIndex(candidates[..count], index, i) == S.FindIndex(candidates[..count], index, 0)
      {
        if candidates[i].features.index == index {
          return Some(i);
        }
      }
      place := None;
    }

    method AppendCandidate(c: S.Candidate)
      requires Valid() && count < S.MAX_CANDIDATES
      modifies this`count, this`retained, this`dirty, candidates
      ensures Valid()
      ensures RecView() == old(RecView()).(candidates := old(RecView()).candidates + [c], retained := old(retained) + |c.data|, dirty := true)
    {
      hide PsiContext.View, FramerValid;
      ghost var before := RecView();
      retained := retained + |c.data|;
      candidates[count] := c;
      count := count + 1;
      dirty := true;
      assert psi.View() == before.psi && pes[..pesSize] == before.pes;
      assert candidates[..count] == before.candidates + [c];
    }

    method CountKeyframe(replacement: bool)
      requires Valid()
      modifies this`counters
      ensures Valid()
      ensures var c := old(counters);
              RecView() == old(RecView()).(counters := c.(keyframes := c.keyframes + if replacement then 0 else 1))
    {
      hide PsiContext.View, FramerValid;
      if !replacement {
        counters := counters.(keyframes := counters.keyframes + 1);
      }
    }

    /** `while (count && ...) evict_oldest(ctx)` */
    method EvictOldest(size: nat)
      requires Valid()
      modifies this`count, this`retained, candidates
      ensures Valid() && count < S.MAX_CANDIDATES
      ensures (candidates[..count], retained) == S.Evict(old(candidates[..count]), old(retained), size, config.maxBytes / 2)
    {
      assert count <= candidates.Length == S.MAX_CANDIDATES;
      hide S.Evict, Valid, FramerValid, PsiContext.View;
      ghost var first, held, budget := candidates[..count], retained, config.maxBytes / 2;
      ghost var store := first;
      while count > 0 && (count == S.MAX_CANDIDATES || retained + size > config.maxBytes / 2)
        invariant Valid() && count <= candidates.Length == S.MAX_CANDIDATES && store == candidates[..count]
        invariant S.Evict(store, retained, size, budget) == S.Evict(first, held, size, budget)
        decreases count
      {
        ghost var later, rest := store[1..], retained - |store[0].data|;
        EvictTurn(store, retained, size, budget);
        assert S.Evict(later, rest, size, budget) == S.Evict(first, held, size, budget);
        DropFirst(store);
        store := later;
        assert retained == rest;
      }
      EvictTurn(store, retained, size, budget);
    }

    method MakeRoom(size: nat)
      requires Valid()
      modifies this`count, this`retained, candidates
      ensures Valid() && count < S.MAX_CANDIDATES
      ensures var (kept, rest) := S.Evict(old(candidates[..count]), old(retained), size, config.maxBytes / 2);
              RecView() == old(RecView()).(candidates := kept, retained := rest)
    {
      hide S.Evict, PsiContext.View, FramerValid;
      EvictOldest(size);
    }

    /** The end of `finish_pes` for a keyframe. */
    method KeepCandidate(c: S.Candidate)
      requires Valid()
      modifies this`count, this`retained, this`dirty, this`counters, candidates
      ensures Valid() && RecView() == S.Keep(config, old(RecView()), c)
    {
      hide S.FindIndex, S.Others, S.Evict, S.Keep, PsiContext.View, FramerValid;
      ghost var st := RecView();
      var replacement := Replace(c.features.index);
      CountKeyframe(replacement);
      MakeRoom(|c.data|);
      AppendCandidate(c);
      KeepIs(config, st, c, RecView());
    }

    /** Hands the features of a whole unit to the host. */
    method ShowFeatures(f: S.Features) returns (ok: bool)
      requires Valid()
      modifies this`calls, this`records
      ensures Valid() && RecView() == S.Record(old(RecView()), f) && ok == world.featuresOk(old(calls))
    {
      hide PsiContext.View, FramerValid;
      ok := world.featuresOk(calls);
      calls, records := calls + 1, records + [f];
    }

    /** The keyframe of a unit enters the store under its rank score. */
    method StoreKeyframe(f: S.Features, ghost scan: S.Scan, data: seq<byte>, keyOffset: nat, keySize: nat)
      requires Valid() && S.ScanInside(scan)
      requires data == scan.data && keyOffset == scan.keyOffset && keySize == scan.keySize
      modifies this`count, this`retained, this`dirty, this`counters, candidates
      ensures Valid() && RecView() == S.Store(config, old(RecView()), scan, f)
    {
      hide S.Keep, RankScore, PsiContext.View, FramerValid;
      var score := ComputeRankScore(config.model, f.values, f.score);
      if f.values[HAS_IDR] != 0.0 && !dropping {
        KeepCandidate(S.CandidateRecord(data, keyOffset, keySize, f.(score := score), 0));
      }
    }

    method StartUnit()
      requires Valid()
      modifies this`current, this`pesSize, this`dropping, this`previewSize
      ensures Valid() && RecView() == S.StartUnit(old(RecView()))
    {
      hide PsiContext.View, FramerValid;
      current, pesSize, dropping, previewSize := ZeroValues(), 0, false, 0;
    }

    /** The first half of `finish_pes`: counts the unit, scans it and scores it. */
    method TakeUnit(partial: bool) returns (f: S.Features, data: seq<byte>, keyOffset: nat, keySize: nat)
      requires Valid() && current[PACKETS] != 0.0
      modifies this`headers, this`headerVersion, this`dirty, this`counters
      ensures Valid()
      ensures var scan := S.ScanPes(old(RecView()));
              && data == scan.data && keyOffset == scan.keyOffset && keySize == scan.keySize
              && f == S.UnitFeatures(old(RecView()), scan)
              && RecView() == S.Scanned(old(RecView()), scan, partial)
    {
      hide S.ScanPes, S.HeuristicScore, PsiContext.View, FramerValid;
      var index := counters.accessUnits;
      var values;
      values, data, keyOffset, keySize := ScanStream();
      if !partial {
        counters := counters.(accessUnits := index + 1);
      }
      f := S.Features(index, codec, values, S.HeuristicScore(values));
    }

    /** `finish_pes`. */
    method FinishPes(partial: bool) returns (ok: bool)
      requires Valid()
      modifies this`headers, this`headerVersion, this`dirty, this`count, this`retained, this`counters, this`progress,
               this`current, this`pesSize, this`dropping, this`previewSize,
               this`calls, this`shown, this`numbers, this`records, this`images, candidates
      ensures Valid() && (RecView(), ok) == S.FinishPes(config, world, old(RecView()), partial)
    {
      hide S.ScanPes, S.Scanned, S.UnitFeatures, S.Store, S.Analyze, S.StartUnit, S.Record, PsiContext.View, FramerValid;
      if current[PACKETS] == 0.0 {
        return true;
      }
      ghost var scan := S.ScanPes(RecView());
      var f, data, keyOffset, keySize := TakeUnit(partial);
      if !partial {
        ok := ShowFeatures(f);
        if !ok {
          return;
        }
      }
      StoreKeyframe(f, scan, data, keyOffset, keySize);
      if !partial {
        StartUnit();
      }
      ok := true;
      if config.analyzeOnFeed {
        ok := Analyze();
      }
    }

    // ---------- Packets ----------

    /** `clear_candidates`. */
    method ClearCandidates()
      requires Valid()
      modifies this`count, this`retained, this`headers, this`headerVersion, this`pesSize, this`dropping, this`previewSize,
               this`current, this`lastCc
      ensures Valid() && RecView() == S.Clear(old(RecView()))
    {
      hide PsiContext.View, FramerValid, RecView;
      ClearStore();
      ClearUnit();
    }

    /** Nothing gathered, no counter remembered. */
    method ClearUnit()
      requires Valid()
      modifies this`pesSize, this`dropping, this`previewSize, this`current, this`lastCc
      ensures Valid()
      ensures RecView() == old(RecView()).(pes := [], dropping := false, previewSize := 0, current := ZeroValues(), lastCc := -1)
    {
      hide PsiContext.View, FramerValid;
      ghost var before := RecView();
      pesSize, dropping, previewSize := 0, false, 0;
      current, lastCc := ZeroValues(), -1;
      assert psi.View() == before.psi && candidates[..count] == before.candidates && pes[..pesSize] == [];
    }

    method ClearStore()
      requires Valid()
      modifies this`count, this`retained, this`headers, this`headerVersion
      ensures Valid()
      ensures RecView() == old(RecView()).(candidates := [], retained := 0, headers := [[], [], []], headerVersion := 0)
    {
      hide PsiContext.View, FramerValid;
      ghost var before := RecView();
      count, retained := 0, 0;
      headers, headerVersion := [[], [], []], 0;
      assert psi.View() == before.psi && pes[..pesSize] == before.pes;
      assert candidates[..count] == [] && FramerView() == old(FramerView());
    }

    /** The search for a stream the configuration allows. */
    method ChooseStream() returns (chosen: Option<T.Stream>)
      ensures chosen == S.Choose(config, psi.video, 0)
    {
      for i := 0 to |psi.video|
        invariant S.Choose(config, psi.video, i) == S.Choose(config, psi.video, 0)
      {
        var codec := S.CodecOf(psi.video[i].streamType);
        var pid := psi.video[i].pid;
        if codec != S.Auto && (config.videoPid < 0 || config.videoPid == pid) && (config.codec == S.Auto || config.codec == codec) {
          return Some(psi.video[i]);
        }
      }
      chosen := None;
    }

    /** The tables may call for another stream. */
    method SelectStream()
      requires Valid()
      modifies this`count, this`retained, this`headers, this`headerVersion, this`pesSize, this`dropping, this`previewSize,
               this`current, this`lastCc, this`pid, this`codec, this`counters, this`images, this`records
      ensures Valid() && RecView() == S.Select(config, old(RecView()))
    {
      hide S.Choose, S.Switch, FramerValid;
      var chosen := ChooseStream();
      if chosen.Some? && (pid != chosen.value.pid || codec != S.CodecOf(chosen.value.streamType)) {
        SwitchStream(chosen.value.pid, S.CodecOf(chosen.value.streamType));
      }
    }

    method SwitchStream(newPid: nat, newCodec: S.Codec)
      requires Valid()
      modifies this`count, this`retained, this`headers, this`headerVersion, this`pesSize, this`dropping, this`previewSize,
               this`current, this`lastCc, this`pid, this`codec, this`counters, this`images, this`records
      ensures Valid() && RecView() == S.Switch(old(RecView()), newPid, newCodec)
    {
      hide S.Clear, PsiContext.View, FramerValid;
      ClearCandidates();
      FollowStream(newPid, newCodec);
    }

    /** The new stream, with no image of it yet. */
    method FollowStream(newPid: nat, newCodec: S.Codec)
      requires Valid()
      modifies this`pid, this`codec, this`counters, this`images, this`records
      ensures Valid()
      ensures RecView() == old(RecView()).(
                pid := newPid, codec := newCodec,
                counters := old(counters).(frameVersion := 0, bestScore := S.NO_SCORE, decodeAttempts := 0, imageQuality := 0.0),
                out := old(RecView()).out.(images := [], records := []))
    {
      hide PsiContext.View, FramerValid;
      ghost var before := RecView();
      pid, codec := newPid, newCodec;
      counters := counters.(frameVersion := 0, bestScore := S.NO_SCORE, decodeAttempts := 0, imageQuality := 0.0);
      images, records := [], [];
      assert psi.View() == before.psi && pes[..pesSize] == before.pes && candidates[..count] == before.candidates;
    }

    /** What the entropy of the payload says. */
    method WeighEntropy(entropy: real) returns (say: real)
      modifies this`current
      ensures current == S.CountEntropy(old(current), entropy) && say == S.EntropySay(entropy)
    {
      if entropy < 1.0 {
        say := -0.20;
        current := Plus(current, LOW_ENTROPY, 1.0);
      } else if entropy > 7.85 {
        say := -0.10;
        current := Plus(current, HIGH_ENTROPY, 1.0);
      } else {
        say := 0.08;
      }
    }

    /** What the start of a PES says. */
    method WeighStart(pkt: TsPacket, payload: seq<byte>) returns (say: real)
      modifies this`current
      ensures current == S.CountStart(old(current), pkt, payload) && say == S.StartSay(pkt, payload)
    {
      say := 0.0;
      if pkt.payloadUnitStart {
        if |payload| >= 3 && payload[0] == 0 && payload[1] == 0 && payload[2] == 1 {
          say := 0.16;
        } else {
          say := -0.30;
          current := Plus(current, BAD_PES_STARTS, 1.0);
        }
      }
    }

    /** What the continuity counter says. */
    method WeighContinuity(pkt: TsPacket) returns (say: real)
      modifies this`current, this`lastCc
      ensures current == S.CountCc(old(current), pkt, S.Reference(pkt, old(lastCc)))
      ensures say == S.CcSay(pkt, S.Reference(pkt, old(lastCc)))
      ensures lastCc == pkt.continuityCounter
    {
      if pkt.discontinuityIndicator {
        lastCc := -1;
      }
      if lastCc < 0 || pkt.continuityCounter == (lastCc + 1) % 16 {
        say := 0.12;
      } else {
        current := Plus(current, CC_ERRORS, 1.0);
        var delta := (pkt.continuityCounter - lastCc - 1) % 16;
        if 1 <= delta <= 8 {
          current := Plus(current, MISSING_BY_CC, delta as real);
          say := -S.MinReal(0.55, 0.12 * delta as real);
        } else if pkt.continuityCounter == lastCc {
          say := -0.25;
        } else {
          say := -0.35;
          current := Plus(current, OUT_OF_ORDER, 1.0);
        }
      }
      lastCc := pkt.continuityCounter;
    }

    /** The evidence a packet adds to the open access unit. */
    method GatherEvidence(pkt: TsPacket, payload: seq<byte>)
      modifies this`current, this`lastCc
      ensures current == S.CountPacket(old(current), pkt, payload, world.entropy(payload), S.Reference(pkt, old(lastCc)))
      ensures lastCc == pkt.continuityCounter
    {
      hide S.CountEntropy, S.CountStart, S.CountCc, S.EntropySay, S.StartSay, S.CcSay, S.Reference;
      var confidence := 0.70;
      if pkt.transportError {
        confidence := confidence - 0.70;
      }
      if pkt.scrambling != 0 {
        confidence := confidence - 0.45;
      }
      var entropySay := WeighEntropy(world.entropy(payload));
      var startSay := WeighStart(pkt, payload);
      var ccSay := WeighContinuity(pkt);
      confidence := confidence + entropySay + startSay + ccSay;
      current := Plus(Plus(current, PACKET_CONFIDENCE, S.Clamp(confidence)), PACKETS, 1.0);
    }

    /** The payload joins the PES while the budget lasts. */
    method AppendPayload(payload: seq<byte>)
      requires Valid()
      modifies this`pesSize, this`dropping, this`counters, pes
      ensures Valid() && RecView() == S.Append(config, old(RecView()), payload)
    {
      hide PsiContext.View, FramerValid;
      if !dropping && pesSize + |payload| <= config.maxBytes / 2 {
        CopyPayload(payload);
      } else {
        if !dropping {
          counters := counters.(oversizedUnits := counters.oversizedUnits + 1);
          pesSize := 0;
        }
        dropping := true;
      }
    }

    /** `memcpy` behind the PES. */
    method CopyPayload(payload: seq<byte>)
      requires Valid() && pesSize + |payload| <= pes.Length
      modifies this`pesSize, pes
      ensures Valid() && pesSize == old(pesSize) + |payload|
      ensures pes[..pesSize] == old(pes[..pesSize]) + payload
    {
      var at := pesSize;
      for i := 0 to |payload|
        invariant pesSize == at
        invariant pes[..at] == old(pes[..pesSize])
        invariant forall k :: 0 <= k < i ==> pes[at + k] == payload[k]
      {
        pes[at + i] := payload[i];
      }
      pesSize := at + |payload|;
      assert pes[..at + |payload|] == pes[..at] + payload;
    }

    /** A payload packet of the selected stream. */
    method TakePayload(pkt: TsPacket)
      requires Valid() && pendingSize == 0 && Layout(pkt)
      modifies this`current, this`lastCc, this`pesSize, this`dropping, this`counters, pes
      ensures Valid() && RecView() == S.Take(config, world, old(RecView()), pkt, pending[..])
    {
      hide S.CountPacket, S.Append, PsiContext.View, FramerValid;
      var payload := pending[pkt.payloadOffset..pkt.payloadOffset + pkt.payloadSize];
      assert payload == S.Payload(pkt, pending[..]);
      GatherEvidence(pkt, payload);
      AppendPayload(payload);
    }

    /** The second half of `packet`. */
    method Receive(pkt: TsPacket) returns (ok: bool)
      requires Valid() && pendingSize == 0 && Layout(pkt)
      modifies this`headers, this`headerVersion, this`dirty, this`count, this`retained, this`counters, this`progress,
               this`current, this`pesSize, this`dropping, this`previewSize, this`lastCc,
               this`calls, this`shown, this`numbers, this`records, this`images, pes, candidates
      ensures Valid() && (RecView(), ok) == S.Receive(config, world, old(RecView()), pkt, pending[..])
    {
      hide S.FinishPes, S.Take, PsiContext.View, FramerValid;
      ok := true;
      if pkt.pid != pid || !pkt.hasPayload {
        return;
      }
      if pkt.payloadUnitStart {
        ok := FinishPes(false);
      }
      if ok {
        TakePayload(pkt);
      }
    }

    /** The tables in a packet, and the stream they call for. */
    method Learn(pkt: TsPacket)
      requires Valid() && pendingSize == 0 && Parse(pending[..]) == Some(pkt)
      modifies this`count, this`retained, this`headers, this`headerVersion, this`pesSize, this`dropping, this`previewSize,
               this`current, this`lastCc, this`pid, this`codec, this`counters, this`images, this`records, psi
      ensures Valid() && RecView() == S.Learn(config, old(RecView()), pkt, pending[..])
    {
      hide Parse, T.Observe, S.Select, PsiContext.View, FramerValid;
      psi.Observe(pkt, pending[..]);
      SelectStream();
    }

    method CountReceived()
      requires Valid()
      modifies this`counters
      ensures Valid() && RecView() == S.CountReceived(old(RecView()))
    {
      hide PsiContext.View, FramerValid;
      counters := counters.(packetsReceived := counters.packetsReceived + 1);
    }

    /** `packet`, on the packet gathered in `pending`. */
    method Packet() returns (ok: bool)
      requires Valid() && pendingSize == 0
      modifies this, psi, pes, candidates
      ensures Valid() && (RecView(), ok) == S.Packet(config, world, old(RecView()), pending[..])
      ensures FramerView() == old(FramerView()) && failed == old(failed) && bytesReceived == old(bytesReceived)
    {
      hide Parse, S.Learn, S.Receive, S.CountReceived, PsiContext.View, FramerValid;
      ghost var raw := pending[..];
      CountReceived();
      ok := true;
      assert pending[..] == raw;
      var parsed := Parse(pending[..]);
      if parsed.Some? {
        Learn(parsed.value);
        ok := Receive(parsed.value);
      }
    }

    // ---------- Public calls ----------

    /** Appends bytes to the packet being gathered. */
    method Gather(bytes: seq<byte>)
      requires Valid() && bytes != [] && pendingSize + |bytes| <= PACKET_SIZE
      modifies this`pendingSize, this`skipping, pending
      ensures pendingSize == old(pendingSize) + |bytes| && !skipping
      ensures pending[..pendingSize] == old(pending[..pendingSize]) + bytes
    {
      skipping := false;
      var at := pendingSize;
      for i := 0 to |bytes|
        invariant pendingSize == at && !skipping
        invariant pending[..at] == old(pending[..pendingSize])
        invariant forall k :: 0 <= k < i ==> pending[at + k] == bytes[k]
      {
        pending[at + i] := bytes[i];
      }
      assert pending[..at + |bytes|] == pending[..at] + bytes;
      pendingSize := at + |bytes|;
    }

    /** A byte that cannot start a packet. */
    method Skip(b: byte)
      requires Valid() && !failed && pendingSize == 0 && b != SYNC_BYTE
      modifies this`discardedBytes, this`skipping, this`resyncs
      ensures Valid() && View().bytesReceived == old(bytesReceived)
      ensures View().fed == FeedByte(R.Step(config, world), old(View()).fed, b)
    {
      hide PsiContext.View, S.Packet;
      discardedBytes := discardedBytes + 1;
      resyncs := resyncs + if skipping then 0 else 1;
      skipping := true;
    }

    /** The 188th byte has come: the packet is handled. */
    method HandlePacket(ghost c: Fed<S.Rec>, ghost bytes: seq<byte>)
      requires Valid() && pendingSize == 0 && !failed && !skipping
      requires !c.failed && bytes != [] && |c.framer.pending| + |bytes| == PACKET_SIZE
      requires c.framer.pending == [] ==> bytes[0] == SYNC_BYTE
      requires c.st == RecView() && c.framer.pending + bytes == pending[..]
      requires c.framer.bytesDropped == discardedBytes && c.framer.resyncCount == resyncs
      modifies this, psi, pes, candidates
      ensures Valid() && bytesReceived == old(bytesReceived)
      ensures View().fed == FeedBytes(R.Step(config, world), c, bytes)
    {
      hide PsiContext.View, S.Packet;
      Complete(R.Step(config, world), c, bytes);
      assert pending[..0] == [];
      var ok := Packet();
      failed := !ok;
    }

    /** One turn of the feed loop on the bytes still to come: skips one, or takes up to a packet's end. */
    method Take(data: seq<byte>) returns (n: nat)
      requires Valid() && !failed && data != []
      modifies Repr()
      ensures Valid() && 0 < n <= |data| && bytesReceived == old(bytesReceived)
      ensures View().fed == FeedBytes(R.Step(config, world), old(View()).fed, data[..n])
    {
      hide S.Packet, PsiContext.View;
      ghost var c := View().fed;
      if pendingSize == 0 && data[0] != SYNC_BYTE {
        Skip(data[0]);
        FeedOne(R.Step(config, world), c, data[0]);
        assert data[..1] == [data[0]];
        return 1;
      }
      n := PACKET_SIZE - pendingSize;
      if n > |data| {
        n := |data|;
      }
      Gather(data[..n]);
      if pendingSize == PACKET_SIZE {
        pendingSize := 0;
        assert pending[..] == c.framer.pending + data[..n];
        HandlePacket(c, data[..n]);
      } else {
        Framing.Gather(R.Step(config, world), c, data[..n]);
      }
    }

    /** The feed loop. */
    method TakeAll(data: seq<byte>)
      requires Valid() && !failed
      modifies Repr()
      ensures Valid() && bytesReceived == old(bytesReceived)
      ensures View().fed == FeedBytes(R.Step(config, world), old(View()).fed, data)
    {
      hide FeedByte, S.Packet, PsiContext.View, FramerValid;
      ghost var c := View().fed;
      var at := 0;
      while at < |data|
        invariant Valid() && !failed && at <= |data| && bytesReceived == old(bytesReceived)
        invariant View().fed == FeedBytes(R.Step(config, world), c, data[..at])
      {
        var n := Take(data[at..]);
        FeedChunks(R.Step(config, world), c, data[..at], data[at..][..n]);
        assert data[..at] + data[at..][..n] == data[..at + n];
        at := at + n;
        if failed {
          FeedChunks(R.Step(config, world), c, data[..at], data[at..]);
          assert data[..at] + data[at..] == data;
          FailedStays(R.Step(config, world), View().fed, data[at..]);
          return;
        }
      }
      assert data[..at] == data;
    }

    /** `sf_recovery_feed`. */
    method Feed(data: seq<byte>) returns (ok: bool)
      requires Valid()
      modifies Repr()
      ensures Valid() && View() == R.FeedCtx(config, world, old(View()), data)
      ensures ok == (old(!failed) && !failed)
    {
      hide FeedBytes, S.Packet, S.Update, PsiContext.View;
      if failed {
        return false;
      }
      bytesReceived := bytesReceived + |data|;
      TakeAll(data);
      UpdateStatus();
      ok := !failed;
    }

    /** The preview inside `sf_recovery_analyze`. */
    method Preview() returns (ok: bool)
      requires Valid()
      modifies this`headers, this`headerVersion, this`dirty, this`count, this`retained, this`counters, this`progress,
               this`current, this`pesSize, this`dropping, this`previewSize,
               this`calls, this`shown, this`numbers, this`records, this`images, candidates
      ensures Valid() && (RecView(), ok) == R.Preview(config, world, old(RecView()))
    {
      hide S.FinishPes, S.Analyze, PsiContext.View, FramerValid, RecView;
      ok := true;
      Fields();
      if pesSize != previewSize && !dropping {
        NoteSize();
        ok := FinishPes(true);
      }
      if ok {
        ok := Analyze();
      }
    }

    method NoteSize()
      requires Valid()
      modifies this`previewSize
      ensures Valid() && RecView() == old(RecView()).(previewSize := |old(RecView()).pes|)
    {
      hide PsiContext.View, FramerValid;
      previewSize := pesSize;
    }

    /** The end of a call: its outcome and the status. */
    method Settle(ok: bool)
      requires Valid()
      modifies this`failed, this`progress
      ensures Valid()
      ensures View() == R.Ctx(Fed(S.Update(old(RecView())), old(FramerView()), !ok), old(bytesReceived))
    {
      hide S.Update, PsiContext.View, FramerValid;
      failed := !ok;
      UpdateStatus();
    }

    /** `sf_recovery_analyze`. */
    method Look() returns (ok: bool)
      requires Valid()
      modifies Repr()
      ensures Valid() && View() == R.AnalyzeCtx(config, world, old(View()))
      ensures ok == (old(!failed) && !failed)
    {
      hide R.Preview, S.Update, PsiContext.View, FramerValid;
      if failed {
        return false;
      }
      ok := Preview();
      Settle(ok);
    }

    /** The work of `sf_recovery_finish`. */
    method Close() returns (ok: bool)
      requires Valid()
      modifies this`headers, this`headerVersion, this`dirty, this`count, this`retained, this`counters, this`progress,
               this`current, this`pesSize, this`dropping, this`previewSize,
               this`calls, this`shown, this`numbers, this`records, this`images, candidates
      ensures Valid() && (RecView(), ok) == R.Close(config, world, old(RecView()))
      ensures FramerView() == old(FramerView())
    {
      hide S.FinishPes, S.Analyze, PsiContext.View, FramerValid, RecView;
      ok := FinishPes(false);
      if ok {
        ok := Analyze();
      }
    }

    /** Bytes of an unfinished packet are given up. */
    method Flush()
      requires Valid()
      modifies this`discardedBytes, this`pendingSize
      ensures Valid() && RecView() == old(RecView())
      ensures FramerView() == old(FramerView()).(pending := [], bytesDropped := old(FramerView()).bytesDropped + |old(FramerView()).pending|)
    {
      hide PsiContext.View;
      discardedBytes := discardedBytes + pendingSize;
      pendingSize := 0;
    }

    /** `sf_recovery_finish`. */
    method Finish() returns (ok: bool)
      requires Valid()
      modifies Repr()
      ensures Valid() && View() == R.FinishCtx(config, world, old(View()))
      ensures ok == (old(!failed) && !failed)
    {
      hide R.Close, S.Update, PsiContext.View, FramerValid, RecView;
      if failed {
        return false;
      }
      Flush();
      ok := Close();
      Settle(ok);
    }

    /** `psi_init` in `sf_recovery_reset`. */
    method ForgetTables()
      requires Valid()
      modifies psi
      ensures Valid() && RecView() == old(RecView()).(psi := T.InitialPsi())
    {
      hide FramerValid, PsiContext.View;
      psi.Init();
    }

    /** The stream choice as configured. */
    method ResetStream()
      requires Valid()
      modifies this`pid, this`codec, this`dirty
      ensures Valid()
      ensures RecView() == old(RecView()).(
                pid := config.videoPid, codec := if config.codec == S.Auto then S.H264 else config.codec, dirty := false)
    {
      hide FramerValid, PsiContext.View;
      pid := config.videoPid;
      codec := if config.codec == S.Auto then S.H264 else config.codec;
      dirty := false;
    }

    /** A blank status. */
    method ResetStatus()
      requires Valid()
      modifies this`counters, this`shown, this`numbers, this`records, this`images
      ensures Valid()
      ensures RecView() == old(RecView()).(counters := S.ZeroCounters(), out := S.Output(old(calls), [], [], [], []))
    {
      hide FramerValid, PsiContext.View;
      counters := S.ZeroCounters();
      shown, records, images, numbers := [], [], [], [];
    }

    /** The engine's part of `sf_recovery_reset`. */
    method ResetRec()
      requires Valid()
      modifies this, psi
      ensures Valid() && RecView() == S.ResetRec(config, old(RecView()))
      ensures FramerView() == old(FramerView())
    {
      hide S.Clear, S.Update, FramerValid, PsiContext.View;
      ClearCandidates();
      ForgetTables();
      ResetStatus();
      ResetStream();
      UpdateStatus();
    }

    /** The framer's part of `sf_recovery_reset`. */
    method ResetFramer()
      requires Valid()
      modifies this`pendingSize, this`bytesReceived, this`discardedBytes, this`failed, this`skipping, this`resyncs
      ensures Valid() && View() == R.Ctx(Fed(old(RecView()), InitialFramer(), false), 0)
    {
      hide PsiContext.View;
      pendingSize, bytesReceived, discardedBytes := 0, 0, 0;
      failed := false;
      skipping, resyncs := false, 0;
    }

    /** `sf_recovery_reset`. */
    method Reset()
      requires Valid()
      modifies Repr()
      ensures Valid() && View() == R.ResetCtx(config, old(View()))
    {
      hide S.ResetRec, PsiContext.View, FramerValid;
      ResetRec();
      ResetFramer();
    }
  }

  /** One turn of the emission loop: the state, whether it went well, and whether a stream was shown. */
  ghost function Emitted(cfg: S.Config, w: S.World, st: S.Rec, k: nat): (r: (S.Rec, bool, bool))
    requires k < |st.candidates|
    ensures |r.0.candidates| == |st.candidates| && (!r.1 ==> !r.2)
  {
    var c := st.candidates[k];
    if c.emitted == st.headerVersion then (st, true, false) else
    var (st1, ok) := S.Emit(cfg, w, st, S.HeaderBytes(st.headers, S.Required(st.codec)) + c.data, c.features, false);
    if !ok then (st1, false, false) else
    (st1.(candidates := st.candidates[k := c.(emitted := st.headerVersion)]), true, true)
  }

  lemma EmitEnds(cfg: S.Config, w: S.World, st: S.Rec, order: seq<nat>, i: nat, emitted: nat)
    requires i >= |order| || emitted >= cfg.maxCandidates
    requires forall k :: 0 <= k < |order| ==> order[k] < |st.candidates|
    ensures S.EmitRanked(cfg, w, st, order, i, emitted) == (st, true)
  {
  }

  lemma EmitTurn(cfg: S.Config, w: S.World, st: S.Rec, order: seq<nat>, i: nat, emitted: nat)
    requires i < |order| && emitted < cfg.maxCandidates && forall k :: 0 <= k < |order| ==> order[k] < |st.candidates|
    ensures var (st1, ok, one) := Emitted(cfg, w, st, order[i]);
            S.EmitRanked(cfg, w, st, order, i, emitted) ==
            if ok then S.EmitRanked(cfg, w, st1, order, i + 1, emitted + if one then 1 else 0) else (st1, false)
  {
    hide S.Emit, S.HeaderBytes;
  }

  /** `sf_recovery_create`: no engine for a configuration out of bounds. */
  method Create(config: S.ConfigRecord, world: S.World) returns (engine: SfRecovery?)
    ensures engine != null <==>
              -1 <= config.videoPid < 8191 && 4096 <= config.maxBytes <= 0x1000_0000 && 1 <= config.maxCandidates <= 256
                && 0.0 <= config.minQuality <= 1.0 && ModelValid(config.model)
    ensures engine != null ==>
              fresh(engine) && engine.Valid() && engine.config == config && engine.world == world
                  && engine.View() == R.InitialCtx(config)
  {
    if config.videoPid < -1 || config.videoPid >= NULL_PID || config.maxBytes < 4096 || config.maxBytes > 256 * 1024 * 1024
      || config.maxCandidates == 0 || config.maxCandidates > S.MAX_CANDIDATES
      || config.minQuality < 0.0 || config.minQuality > 1.0 || !ModelValid(config.model) {
      return null;
    }
    engine := new SfRecovery(config, world);
  }

  /** The pieces of `S.Keep`. */
  lemma KeepIs(cfg: S.Config, st: S.Rec, c: S.Candidate, r: S.Rec)
    requires r == st.(candidates := r.candidates, retained := r.retained, dirty := true,
                      counters := st.counters.(keyframes := r.counters.keyframes))
    requires var (others, freed) := S.Others(st.candidates, c.features.index);
             var (kept, retained) := S.Evict(others, st.retained - freed, |c.data|, cfg.maxBytes / 2);
             r.candidates == kept + [c] && r.retained == retained + |c.data|
    requires r.counters.keyframes ==
             st.counters.keyframes + if S.FindIndex(st.candidates, c.features.index, 0).Some? then 0 else 1
    ensures r == S.Keep(cfg, st, c)
  {
  }

  lemma EvictTurn(store: seq<S.Candidate>, retained: int, size: nat, budget: nat)
    ensures S.Evict(store, retained, size, budget) ==
            if store != [] && (|store| == S.MAX_CANDIDATES || retained + size > budget)
            then S.Evict(store[1..], retained - |store[0].data|, size, budget)
            else (store, retained)
  {
  }

  /** One turn of the split loop takes the first of the units still to come. */
  lemma ScanFirst(codec: S.Codec, scan: S.Scan, es: seq<byte>, at: nat, prefix: nat)
    requires at < |es| && prefix == PrefixAt(es, at) != 0
    ensures var (end, next) := StartCode(es, at + prefix);
            && (end < |es| ==> next == PrefixAt(es, end) != 0)
            && at + prefix <= end <= |es| && 3 <= prefix && at + prefix < |es|
            && S.ScanUnits(codec, scan, es, Units(es, at, prefix)) ==
               S.ScanUnits(codec, S.ScanUnit(codec, scan, es, Unit(at, prefix, end)), es, Units(es, end, next))
  {
    hide S.ScanUnit, StartCode, PrefixAt;
    var (end, next) := StartCode(es, at + prefix);
    assert Units(es, at, prefix)[0] == Unit(at, prefix, end) && Units(es, at, prefix)[1..] == Units(es, end, next);
  }

  lemma ScanDone(codec: S.Codec, scan: S.Scan, es: seq<byte>, at: nat, prefix: nat)
    requires at >= |es|
    ensures S.ScanUnits(codec, scan, es, Units(es, at, prefix)) == scan
  {
  }

  lemma LongestOfNone()
    ensures S.LongestKey([]) == 0
  {
  }

  lemma MembersTurn(all: seq<S.Candidate>, places: seq<nat>, j: nat, bucket: nat, members: seq<S.Candidate>)
    requires j < |places| && forall k :: 0 <= k < |places| ==> places[k] < |all|
    ensures members + S.Members(all, places[j..], bucket) ==
            (if S.Bucket(all[places[j]]) == bucket then members + [all[places[j]]] else members) + S.Members(all, places[j + 1..], bucket)
  {
    assert places[j..][0] == places[j] && places[j..][1..] == places[j + 1..];
    var rest := S.Members(all, places[j + 1..], bucket);
    hide S.Members;
    assert members + ([all[places[j]]] + rest) == members + [all[places[j]]] + rest;
    assert members + ([] + rest) == members + rest;
  }

  lemma NoMembers(all: seq<S.Candidate>, places: seq<nat>, bucket: nat, members: seq<S.Candidate>)
    requires forall k :: 0 <= k < |places| ==> places[k] < |all|
    ensures members + S.Members(all, places[|places|..], bucket) == members
  {
  }

  lemma {:induction false} LongestAppend(members: seq<S.Candidate>, c: S.Candidate)
    ensures S.LongestKey(members + [c]) == S.Max(S.LongestKey(members), c.keySize)
  {
    if members != [] {
      assert (members + [c])[1..] == members[1..] + [c];
      LongestAppend(members[1..], c);
    }
  }
}
