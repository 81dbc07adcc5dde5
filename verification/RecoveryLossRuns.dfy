// Exact loss accounting over whole runs, from a fresh engine or a change of stream on (src/recovery.c:211-219, 317-355).
module RecoveryLossRuns {
  import opened Bytes
  import opened TsPackets
  import opened PsiTables
  import opened AnnexB
  import opened RankModels
  import opened Framing
  import opened RecoverySpec
  import opened RecoveryInvariants
  import opened RecoveryRuns
  import opened RecoveryPreview
  import opened RecoveryShowings
  import opened RecoveryLoss

  // ---------- The packets of a stretch of a run ----------

  /** The packets the framer hands over during a feed. */
  function FedPackets(cfg: Config, w: World, c: Fed<Rec>, data: seq<byte>): seq<Raw>
  {
    if data == [] then [] else
    var front := data[..|data| - 1];
    var packet := Push(FeedBytes(Step(cfg, w), c, front).framer, data[|data| - 1]).1;
    FedPackets(cfg, w, c, front) + if packet.Some? then [packet.value] else []
  }

  function CallPackets(cfg: Config, w: World, c: Ctx, call: Call): seq<Raw>
  {
    if call.Feed? then FedPackets(cfg, w, c.fed, call.data) else []
  }

  function PacketsOf(cfg: Config, w: World, before: seq<Call>, more: seq<Call>): seq<Raw>
  {
    if more == [] then [] else
    var front := more[..|more| - 1];
    PacketsOf(cfg, w, before, front) + CallPackets(cfg, w, Run(cfg, w, before + front), more[|more| - 1])
  }

  // ---------- What they say ----------

  /** The counter last seen on the stream, starting with `last`. */
  function LastSeen(pid: int, raws: seq<Raw>, last: int): int
  {
    if raws == [] then last
    else if IsVideoOf(pid, raws[|raws| - 1]) then Parse(raws[|raws| - 1]).value.continuityCounter
    else LastSeen(pid, raws[..|raws| - 1], last)
  }

  function Says(pid: int, raw: Raw, last: int, i: nat): real
    requires FromPackets(i)
  {
    if IsVideoOf(pid, raw) then Evidence(Parse(raw).value, Reference(Parse(raw).value, last), i) else 0.0
  }

  /** The evidence of a list of packets. */
  function AllSay(pid: int, raws: seq<Raw>, last: int, i: nat): real
    requires FromPackets(i)
  {
    if raws == [] then 0.0 else
    var front := raws[..|raws| - 1];
    AllSay(pid, front, last, i) + Says(pid, raws[|raws| - 1], LastSeen(pid, front, last), i)
  }

  lemma {:induction false} FirstApart(pid: int, raws: seq<Raw>, last: int, i: nat)
    requires FromPackets(i) && raws != []
    ensures var next := if IsVideoOf(pid, raws[0]) then Parse(raws[0]).value.continuityCounter else last;
            && LastSeen(pid, raws, last) == LastSeen(pid, raws[1..], next)
            && AllSay(pid, raws, last, i) == Says(pid, raws[0], last, i) + AllSay(pid, raws[1..], next, i)
    decreases |raws|
  {
    hide Parse, Says;
    var front := raws[..|raws| - 1];
    if front == [] {
      assert raws[1..] == [];
    } else {
      FirstApart(pid, front, last, i);
      assert raws[1..][..|raws[1..]| - 1] == front[1..];
    }
  }

  /** The packets of a reception say exactly what was lost. */
  lemma {:induction false} ReceptionSays(pid: int, last: int, raws: seq<Raw>, at: seq<nat>, start: nat, base: nat, i: nat)
    requires FromPackets(i) && |at| == |raws|
    requires Reception(pid, raws, at, start, base) && Tuned(pid, last, raws, at, start, base)
    ensures AllSay(pid, raws, last, i) == Losses(at, start, i) as real
    decreases |raws|
  {
    hide Parse, Evidence, Reference, Tuned, Losses, Reception;
    if raws == [] {
      NothingLost(at, start, i);
    } else {
      FirstSays(pid, last, raws, at, start, base, i);
      FirstApart(pid, raws, last, i);
      var next := if IsVideoOf(pid, raws[0]) then Parse(raws[0]).value.continuityCounter else last;
      ReceptionSays(pid, next, raws[1..], at[1..], at[0], base, i);
    }
  }

  // ---------- What the engine has counted ----------

  /** Between two moments exactly the evidence of these packets was counted. */
  predicate Counted(a: Rec, b: Rec, raws: seq<Raw>, i: nat)
    requires FromPackets(i)
  {
    && b.pid == a.pid && CurrentOk(b.current)
    && Total(b, i) == Total(a, i) + AllSay(a.pid, raws, a.lastCc, i)
    && b.lastCc == LastSeen(a.pid, raws, a.lastCc)
  }

  lemma PacketCounted(cfg: Config, w: World, a: Rec, b: Rec, raws: seq<Raw>, raw: Raw, i: nat)
    requires FromPackets(i) && Counted(a, b, raws, i) && StaysOn(cfg, b, raw) && Packet(cfg, w, b, raw).1
    ensures Counted(a, Packet(cfg, w, b, raw).0, raws + [raw], i)
  {
    StaysKeeps(cfg, b, raw);
    PacketTotal(cfg, w, b, raw, i);
    hide Parse, Packet, CurrentOk, Total, Evidence, Reference, StaysOn, KeepsStream, LastSeen, AllSay;
    OneMoreSays(a.pid, raws, raw, a.lastCc, i);
  }

  lemma OneMoreSays(pid: int, raws: seq<Raw>, raw: Raw, last: int, i: nat)
    requires FromPackets(i)
    ensures LastSeen(pid, raws + [raw], last) ==
            if IsVideoOf(pid, raw) then Parse(raw).value.continuityCounter else LastSeen(pid, raws, last)
    ensures AllSay(pid, raws + [raw], last, i) == AllSay(pid, raws, last, i) + Says(pid, raw, LastSeen(pid, raws, last), i)
  {
    hide Parse, Says;
    assert (raws + [raw])[..|raws + [raw]| - 1] == raws;
  }

  lemma StaysKeeps(cfg: Config, st: Rec, raw: Raw)
    requires StaysOn(cfg, st, raw)
    ensures KeepsStream(cfg, CountReceived(st), raw)
  {
    hide Parse, Observe, Choose;
  }

  lemma {:induction false} FeedCounted(cfg: Config, w: World, a: Rec, c: Fed<Rec>, raws: seq<Raw>, data: seq<byte>, i: nat)
    requires FromPackets(i) && Counted(a, c.st, raws, i) && FeedStays(cfg, w, c, data)
    requires !FeedBytes(Step(cfg, w), c, data).failed
    ensures Counted(a, FeedBytes(Step(cfg, w), c, data).st, raws + FedPackets(cfg, w, c, data), i)
  {
    hide Packet, Counted, StaysOn;
    if data == [] {
      assert raws + [] == raws;
    } else {
      var front := data[..|data| - 1];
      var c1 := FeedBytes(Step(cfg, w), c, front);
      FeedCounted(cfg, w, a, c, raws, front, i);
      var (framer, packet) := Push(c1.framer, data[|data| - 1]);
      var earlier := FedPackets(cfg, w, c, front);
      if packet.Some? {
        PacketCounted(cfg, w, a, c1.st, raws + earlier, packet.value, i);
        assert raws + (earlier + [packet.value]) == raws + earlier + [packet.value];
      } else {
        assert earlier + [] == earlier;
      }
    }
  }

  /** Looks and the end of the stream count nothing. */
  lemma SameCounted(a: Rec, b: Rec, b': Rec, raws: seq<Raw>, i: nat)
    requires FromPackets(i) && Counted(a, b, raws, i)
    requires Total(b', i) == Total(b, i) && CurrentOk(b'.current) && b'.pid == b.pid && b'.lastCc == b.lastCc
    ensures Counted(a, b', raws, i)
  {
    hide Total, CurrentOk;
  }

  lemma CoreTotal(a: Rec, b: Rec, i: nat)
    requires FromPackets(i) && CoreOf(a) == CoreOf(b)
    ensures Total(a, i) == Total(b, i) && a.current == b.current && a.pid == b.pid && a.lastCc == b.lastCc
  {
  }

  lemma CloseTotal(cfg: Config, w: World, st: Rec, i: nat)
    requires FromPackets(i) && CurrentOk(st.current) && Close(cfg, w, st).1
    ensures var r := Close(cfg, w, st).0;
            Total(r, i) == Total(st, i) && CurrentOk(r.current) && r.pid == st.pid && r.lastCc == st.lastCc
  {
    hide FinishPes, Analyze, CurrentOk, CoreOf, Total;
    FinishKeepsTotal(cfg, w, st, i);
    var st1 := FinishPes(cfg, w, st, false).0;
    AnalyzeKeepsCore(cfg, w, st1);
    CoreTotal(Analyze(cfg, w, st1).0, st1, i);
  }

  lemma CountedOk(a: Rec, b: Rec, raws: seq<Raw>, i: nat)
    requires FromPackets(i) && Counted(a, b, raws, i)
    ensures CurrentOk(b.current)
  {
  }

  lemma CallCounted(cfg: Config, w: World, a: Rec, c: Ctx, raws: seq<Raw>, call: Call, i: nat)
    requires FromPackets(i) && Counted(a, c.fed.st, raws, i) && CallStays(cfg, w, c, call)
    requires !c.fed.failed && !Apply(cfg, w, c, call).fed.failed
    ensures Counted(a, Apply(cfg, w, c, call).fed.st, raws + CallPackets(cfg, w, c, call), i)
  {
    hide Counted, CurrentOk, Update, Preview, Close, FeedStays, CoreOf, Total;
    var st := c.fed.st;
    CountedOk(a, st, raws, i);
    assert raws + [] == raws;
    match call {
      case Feed(data) =>
        FeedCounted(cfg, w, a, c.fed, raws, data, i);
        var r := FeedBytes(Step(cfg, w), c.fed, data).st;
        CountedOk(a, r, raws + FedPackets(cfg, w, c.fed, data), i);
        UpdateKeepsCore(r);
        CoreTotal(Update(r), r, i);
        SameCounted(a, r, Update(r), raws + FedPackets(cfg, w, c.fed, data), i);
      case Look =>
        LookKeepsCore(cfg, w, c);
        CoreTotal(AnalyzeCtx(cfg, w, c).fed.st, st, i);
        SameCounted(a, st, AnalyzeCtx(cfg, w, c).fed.st, raws, i);
      case Finish =>
        CloseTotal(cfg, w, st, i);
        var r := Close(cfg, w, st).0;
        UpdateKeepsCore(r);
        CoreTotal(Update(r), r, i);
        SameCounted(a, st, Update(r), raws, i);
      case Reset =>
    }
  }

  lemma {:induction false} StretchCounted(cfg: Config, w: World, before: seq<Call>, more: seq<Call>, i: nat)
    requires FromPackets(i) && Stays(cfg, w, before, more) && !Run(cfg, w, before + more).fed.failed
    ensures Counted(Run(cfg, w, before).fed.st, Run(cfg, w, before + more).fed.st, PacketsOf(cfg, w, before, more), i)
  {
    hide Counted, Apply, CallStays, CallPackets;
    var a := Run(cfg, w, before).fed.st;
    if more == [] {
      assert before + more == before;
      RunSafe(cfg, w, before);
      NothingCounted(cfg, a, i);
    } else {
      var front, call := more[..|more| - 1], more[|more| - 1];
      assert (before + more)[..|before + more| - 1] == before + front;
      assert Run(cfg, w, before + more) == Apply(cfg, w, Run(cfg, w, before + front), call);
      if Run(cfg, w, before + front).fed.failed {
        RecoveryShowings.FailedStays(cfg, w, Run(cfg, w, before + front), call);
      }
      StretchCounted(cfg, w, before, front, i);
      CallCounted(cfg, w, a, Run(cfg, w, before + front), PacketsOf(cfg, w, before, front), call, i);
    }
  }

  lemma NothingCounted(cfg: Config, st: Rec, i: nat)
    requires FromPackets(i) && Safe(cfg, st)
    ensures Counted(st, st, [], i)
  {
    hide CurrentOk, Total, TotalSize, Rising, ImagesOk;
  }

  // ---------- From the start ----------

  /** An engine that follows a stream none of whose packets it has taken. */
  predicate Untouched(st: Rec)
  {
    st.lastCc < 0 && st.out.records == [] && st.current == ZeroValues()
  }

  /** Such is a new engine, one just reset, and one that has just changed to another stream. */
  lemma StartsUntouched(cfg: Config, w: World, calls: seq<Call>, st: Rec, pid: nat, codec: Codec)
    ensures Untouched(Run(cfg, w, []).fed.st) && Untouched(Run(cfg, w, calls + [Reset]).fed.st)
    ensures Untouched(Switch(st, pid, codec))
  {
    hide Update, Untouched;
    var blank := Rec(InitialPsi(), -1, H264, [], false, -1, ZeroValues(), [[], [], []], 0, [], 0, false, 0, ZeroCounters(),
                     Progress(WaitService, 0, 0, 2, 0), Output(0, [], [], [], []));
    ResetUntouched(cfg, blank);
    ResetUntouched(cfg, Run(cfg, w, calls).fed.st);
    assert (calls + [Reset])[..|calls + [Reset]| - 1] == calls;
    SwitchUntouched(st, pid, codec);
  }

  lemma ResetUntouched(cfg: Config, st: Rec)
    ensures Untouched(ResetRec(cfg, st))
  {
  }

  lemma SwitchUntouched(st: Rec, pid: nat, codec: Codec)
    ensures Untouched(Switch(st, pid, codec))
  {
  }

  /** Over any stretch of a run without a failure, a reset or a change of stream, with looks and ends of streams anywhere
      in it, whose packets are a reception with bursts of up to eight lost packets: the missing count grows by exactly
      the packets lost and the error count by exactly the bursts. From the start of a stream on they are exactly that. */
  lemma RunExactLoss(cfg: Config, w: World, before: seq<Call>, more: seq<Call>, at: seq<nat>, start: nat, base: nat, i: nat)
    requires FromPackets(i) && Stays(cfg, w, before, more) && !Run(cfg, w, before + more).fed.failed
    requires |at| == |PacketsOf(cfg, w, before, more)|
    requires var a, raws := Run(cfg, w, before).fed.st, PacketsOf(cfg, w, before, more);
             Reception(a.pid, raws, at, start, base) && Tuned(a.pid, a.lastCc, raws, at, start, base)
    ensures var a, b := Run(cfg, w, before).fed.st, Run(cfg, w, before + more).fed.st;
            && Total(b, i) == Total(a, i) + Losses(at, start, i) as real
            && (Untouched(a) ==> Total(b, i) == Losses(at, start, i) as real)
  {
    hide Run, Total, Reception, Tuned, PacketsOf, Losses;
    var a := Run(cfg, w, before).fed.st;
    StretchCounted(cfg, w, before, more, i);
    ReceptionSays(a.pid, a.lastCc, PacketsOf(cfg, w, before, more), at, start, base, i);
    UntouchedTotal(a, i);
  }

  lemma UntouchedTotal(st: Rec, i: nat)
    requires FromPackets(i)
    ensures Untouched(st) ==> Total(st, i) == 0.0
  {
  }
}
