// The fragment ring with its running totals, and the table of the busiest PIDs (src/contest.c).
module Contest {
  import opened Bytes
  import opened TsPackets
  import T = PsiTables

  const CAPACITY := 4096
  const MAX_PAYLOAD := 184
  const TOP := 8

  datatype Fragment = Fragment(
    packetIndex: nat,
    pid: nat,
    continuityCounter: nat,
    payloadUnitStart: bool,
    transportError: bool,
    scrambling: nat,
    discontinuity: bool,
    payload: seq<byte>,
    hash: bv32,
    confidence: real)

  /** A fragment with the roles its PID had when it came. */
  datatype Seen = Seen(fragment: Fragment, si: bool, video: bool, audio: bool)

  datatype Totals = Totals(tei: nat, pusi: nat, scrambled: nat, discontinuity: nat, si: nat, video: nat, audio: nat)

  // ---------- What the context should hold ----------

  function One(b: bool): nat
  {
    if b then 1 else 0
  }

  /** One more fragment on the totals. */
  function TotalsWith(t: Totals, s: Seen): Totals
  {
    Totals(t.tei + One(s.fragment.transportError), t.pusi + One(s.fragment.payloadUnitStart),
           t.scrambled + One(s.fragment.scrambling != 0), t.discontinuity + One(s.fragment.discontinuity),
           t.si + One(s.si), t.video + One(s.video), t.audio + One(s.audio))
  }

  function TotalsOf(history: seq<Seen>): Totals
  {
    if history == [] then Totals(0, 0, 0, 0, 0, 0, 0) else
    TotalsWith(TotalsOf(history[..|history| - 1]), history[|history| - 1])
  }

  datatype Kind = Damaged | Starting | Scrambled | Announced | OfTables | OfVideo | OfAudio

  predicate Is(kind: Kind, s: Seen)
  {
    match kind
    case Damaged => s.fragment.transportError
    case Starting => s.fragment.payloadUnitStart
    case Scrambled => s.fragment.scrambling != 0
    case Announced => s.fragment.discontinuity
    case OfTables => s.si
    case OfVideo => s.video
    case OfAudio => s.audio
  }

  function CountKind(history: seq<Seen>, kind: Kind): nat
  {
    if history == [] then 0 else CountKind(history[..|history| - 1], kind) + if Is(kind, history[|history| - 1]) then 1 else 0
  }

  /** Each total counts the fragments of one kind. */
  lemma {:induction false} TotalsCount(history: seq<Seen>)
    ensures var t := TotalsOf(history);
            && t.tei == CountKind(history, Damaged) && t.pusi == CountKind(history, Starting)
            && t.scrambled == CountKind(history, Scrambled) && t.discontinuity == CountKind(history, Announced)
            && t.si == CountKind(history, OfTables) && t.video == CountKind(history, OfVideo) && t.audio == CountKind(history, OfAudio)
  {
    if history != [] {
      TotalsCount(history[..|history| - 1]);
    }
  }

  lemma CountedMore(history: seq<Seen>, s: Seen)
    ensures TotalsOf(history + [s]) == TotalsWith(TotalsOf(history), s)
    ensures forall p: nat :: CountPid(history + [s], p) == CountPid(history, p) + if s.fragment.pid == p then 1 else 0
  {
    hide TotalsWith;
    assert (history + [s])[..|history + [s]| - 1] == history;
  }

  function CountPid(history: seq<Seen>, pid: nat): nat
  {
    if history == [] then 0 else
    CountPid(history[..|history| - 1], pid) + One(history[|history| - 1].fragment.pid == pid)
  }

  function PayloadBytes(window: seq<Seen>): nat
  {
    if window == [] then 0 else |window[0].fragment.payload| + PayloadBytes(window[1..])
  }

  /** The fragments a ring of 4096 places holds. */
  function Window(history: seq<Seen>): (w: seq<Seen>)
    ensures |w| == if |history| <= CAPACITY then |history| else CAPACITY
  {
    if |history| <= CAPACITY then history else history[|history| - CAPACITY..]
  }

  lemma {:induction false} BytesAppend(window: seq<Seen>, s: Seen)
    ensures PayloadBytes(window + [s]) == PayloadBytes(window) + |s.fragment.payload|
  {
    if window == [] {
      assert [] + [s] == [s] && [s][1..] == [];
    } else {
      assert (window + [s])[1..] == window[1..] + [s];
      BytesAppend(window[1..], s);
    }
  }

  /** A newcomer pushes the oldest fragment out of a full ring, and the byte total follows. */
  lemma WindowSlides(history: seq<Seen>, s: Seen)
    ensures var w, w' := Window(history), Window(history + [s]);
            if |history| < CAPACITY
            then w' == w + [s] && PayloadBytes(w') == PayloadBytes(w) + |s.fragment.payload|
            else w' == w[1..] + [s] && PayloadBytes(w') == PayloadBytes(w) - |w[0].fragment.payload| + |s.fragment.payload|
  {
    var w := Window(history);
    if |history| < CAPACITY {
      BytesAppend(w, s);
    } else {
      assert Window(history + [s]) == w[1..] + [s];
      BytesAppend(w[1..], s);
    }
  }

  // ---------- The ring ----------

  function HashStep(h: bv32, b: byte): bv32
  {
    (h ^ (b as bv32)) * 16777619
  }

  function HashFrom(h: bv32, data: seq<byte>): bv32
  {
    if data == [] then h else HashStep(HashFrom(h, data[..|data| - 1]), data[|data| - 1])
  }

  /** The published values of the 32-bit FNV-1a hash for the empty text and for "a". */
  lemma HashValues()
    ensures HashFrom(2166136261, []) == 0x811c_9dc5
    ensures HashFrom(2166136261, [0x61]) == 0xe40c_292c
  {
    hide HashFrom;
    NoHash();
    OneHash([0x61], 0);
    assert [0x61 as byte][..1] == [0x61] && [0x61 as byte][..0] == [];
  }

  lemma NoHash()
    ensures HashFrom(2166136261, []) == 2166136261
  {
  }

  lemma OneHash(data: seq<byte>, k: nat)
    requires k < |data|
    ensures HashFrom(2166136261, data[..k + 1]) == HashStep(HashFrom(2166136261, data[..k]), data[k])
  {
    hide HashStep;
    assert data[..k + 1][..k] == data[..k];
  }

  /** `fnv1a`; never 0. */
  method Fnv1a(data: seq<byte>) returns (h: bv32)
    ensures h == (if HashFrom(2166136261, data) != 0 then HashFrom(2166136261, data) else 1)
  {
    hide HashStep;
    h := 2166136261;
    for i := 0 to |data|
      invariant h == HashFrom(2166136261, data[..i])
    {
      assert data[..i + 1][..i] == data[..i];
      h := HashStep(h, data[i]);
    }
    assert data[..|data|] == data;
    if h == 0 {
      h := 1;
    }
  }

  /** Whether a packet carries a payload worth keeping. */
  predicate Observed(pkt: TsPacket)
  {
    pkt.hasPayload && pkt.payloadSize > 0 && pkt.payloadOffset < PACKET_SIZE
  }

  function Confidence(pkt: TsPacket): real
  {
    (if pkt.transportError then 0.20 else 1.0) * (if pkt.scrambling != 0 then 0.35 else 1.0)
    * (if pkt.discontinuityIndicator then 0.70 else 1.0)
  }

  /** A sound fragment has full confidence; each sign of damage leaves a share of it, whatever the others. */
  lemma ConfidenceShares(pkt: TsPacket)
    ensures var sound := pkt.(transportError := false, scrambling := 0, discontinuityIndicator := false);
            && Confidence(sound) == 1.0
            && Confidence(pkt.(transportError := true)) == 0.20 * Confidence(pkt.(transportError := false))
            && (pkt.scrambling != 0 ==> Confidence(pkt) == 0.35 * Confidence(pkt.(scrambling := 0)))
            && Confidence(pkt.(discontinuityIndicator := true)) == 0.70 * Confidence(pkt.(discontinuityIndicator := false))
  {
  }

  /** What is kept of a packet. */
  predicate IsFragment(f: Fragment, pkt: TsPacket, raw: Raw, index: nat)
    requires Layout(pkt)
  {
    && f.packetIndex == index && f.pid == pkt.pid && f.continuityCounter == pkt.continuityCounter
    && f.payloadUnitStart == pkt.payloadUnitStart && f.transportError == pkt.transportError
    && f.scrambling == pkt.scrambling && f.discontinuity == pkt.discontinuityIndicator
    && f.payload == raw[pkt.payloadOffset..pkt.payloadOffset + pkt.payloadSize]
    && f.hash == (if HashFrom(2166136261, f.payload) != 0 then HashFrom(2166136261, f.payload) else 1)
    && f.confidence == Confidence(pkt)
  }

  /** The slot is filled from the packet. */
  method MakeFragment(pkt: TsPacket, raw: Raw, index: nat) returns (f: Fragment)
    requires Layout(pkt)
    requires pkt.pid < PID_COUNT
    ensures IsFragment(f, pkt, raw, index) && f.pid < PID_COUNT
  {
    var size := pkt.payloadSize;
    if size > MAX_PAYLOAD {
      size := MAX_PAYLOAD;
    }
    var payload := raw[pkt.payloadOffset..pkt.payloadOffset + size];
    var hash := Fnv1a(payload);
    var confidence := 1.0;
    if pkt.transportError {
      confidence := confidence * 0.20;
    }
    if pkt.scrambling != 0 {
      confidence := confidence * 0.35;
    }
    if pkt.discontinuityIndicator {
      confidence := confidence * 0.70;
    }
    f := Fragment(index, pkt.pid, pkt.continuityCounter, pkt.payloadUnitStart, pkt.transportError, pkt.scrambling,
                  pkt.discontinuityIndicator, payload, hash, confidence);
  }

  /** The slot of the `k`-th fragment. */
  function Slot(k: nat): (r: nat)
    ensures r < CAPACITY
  {
    k % CAPACITY
  }

  /** The newest fragment takes the slot of the one 4096 before it and of none in between. */
  lemma SlotsDiffer(n: nat)
    ensures forall k :: 0 <= k < n && n < k + CAPACITY ==> Slot(k) != Slot(n)
    ensures Slot(n + 1) == (Slot(n) + 1) % CAPACITY
    ensures n >= CAPACITY ==> Slot(n - CAPACITY) == Slot(n)
    ensures Slot(0) == 0
  {
  }

  class ContestContext {
    const fragments: array<Fragment>
    const pidFragmentCount: array<nat>
    var fragmentsSeen: nat
    var fragmentsStored: nat
    var bytesStored: int
    var totals: Totals
    var nextSlot: nat
    ghost var history: seq<Seen>

    /** The ring holds the window of what has been seen, and the bytes it carries are known. */
    ghost predicate RingHolds(seen: seq<Seen>)
      reads this`fragmentsSeen, this`fragmentsStored, this`bytesStored, this`nextSlot, fragments
    {
      && fragments.Length == CAPACITY
      && fragmentsSeen == |seen| && fragmentsStored == |Window(seen)| && nextSlot == Slot(|seen|)
      && (forall k :: 0 <= k < |seen| && |seen| <= k + CAPACITY ==> fragments[Slot(k)] == seen[k].fragment)
      && bytesStored == PayloadBytes(Window(seen))
    }

    ghost predicate Counted(seen: seq<Seen>)
      reads this`totals, pidFragmentCount
    {
      && pidFragmentCount.Length == PID_COUNT && totals == TotalsOf(seen)
      && forall p :: 0 <= p < PID_COUNT ==> pidFragmentCount[p] == CountPid(seen, p)
    }

    ghost predicate Valid()
      reads this, fragments, pidFragmentCount
    {
      RingHolds(history) && Counted(history)
    }

    /** `contest_init`. */
    constructor ()
      ensures Valid() && history == [] && fresh(fragments) && fresh(pidFragmentCount)
    {
      fragments := new Fragment[CAPACITY](_ => Fragment(0, 0, 0, false, false, 0, false, [], 0, 0.0));
      pidFragmentCount := new nat[PID_COUNT](_ => 0);
      fragmentsSeen, fragmentsStored, bytesStored, nextSlot := 0, 0, 0, 0;
      totals := Totals(0, 0, 0, 0, 0, 0, 0);
      history := [];
    }

    /** `contest_observe_packet`: whatever has come before, the ring holds the last 4096 fragments with the bytes they
        carry, and the totals count every fragment. */
    method Observe(pkt: TsPacket, raw: Raw, psi: T.Psi, index: nat)
      requires Valid() && Layout(pkt) && pkt.pid < PID_COUNT
      modifies this, fragments, pidFragmentCount
      ensures Valid()
      ensures !Observed(pkt) ==> history == old(history)
      ensures Observed(pkt) ==> |history| == |old(history)| + 1 && history[..|old(history)|] == old(history)
      ensures Observed(pkt) ==>
                var s := history[|old(history)|];
                && IsFragment(s.fragment, pkt, raw, index)
                && s.si == T.IsKnownSi(psi, pkt.pid) && s.video == T.Listed(pkt.pid, psi.video)
                    && s.audio == T.Listed(pkt.pid, psi.audio)
    {
      hide RingHolds, Counted, IsFragment;
      if !pkt.hasPayload || pkt.payloadSize == 0 || pkt.payloadOffset >= PACKET_SIZE {
        return;
      }
      var fragment := MakeFragment(pkt, raw, index);
      Store(Seen(fragment, T.IsKnownSi(psi, pkt.pid), T.Listed(pkt.pid, psi.video), T.Listed(pkt.pid, psi.audio)));
    }

    /** Overwrites the next slot and brings the totals up to date. */
    method Store(s: Seen)
      requires Valid() && s.fragment.pid < PID_COUNT
      modifies this, fragments, pidFragmentCount
      ensures Valid() && history == old(history) + [s]
    {
      hide RingHolds, Counted;
      StoreFragment(s);
      CountFragment(s);
      history := history + [s];
    }

    method StoreFragment(s: Seen)
      requires RingHolds(history)
      modifies this`fragmentsSeen, this`fragmentsStored, this`bytesStored, this`nextSlot, fragments
      ensures RingHolds(history + [s])
    {
      hide PayloadBytes, Slot, Window;
      MakeRoom(s);
      fragments[nextSlot] := s.fragment;
      fragmentsSeen := fragmentsSeen + 1;
      bytesStored := bytesStored + |s.fragment.payload|;
      SlotsDiffer(|history|);
      nextSlot := (nextSlot + 1) % CAPACITY;
    }

    /** The bytes of the fragment about to be overwritten go. */
    method MakeRoom(s: Seen)
      requires RingHolds(history)
      modifies this`fragmentsStored, this`bytesStored
      ensures fragmentsStored == |Window(history + [s])|
      ensures bytesStored == PayloadBytes(Window(history + [s])) - |s.fragment.payload|
    {
      RingParts();
      WindowSlides(history, s);
      hide PayloadBytes, Window, RingHolds;
      if fragmentsStored >= CAPACITY {
        bytesStored := bytesStored - |fragments[nextSlot].payload|;
      } else {
        fragmentsStored := fragmentsStored + 1;
      }
    }

    /** What the ring says of its fill, and of the fragment that goes next when it is full. */
    lemma RingParts()
      requires RingHolds(history)
      ensures fragments.Length == CAPACITY && nextSlot < CAPACITY
      ensures fragmentsStored == |Window(history)| && bytesStored == PayloadBytes(Window(history))
      ensures |Window(history)| == if |history| < CAPACITY then |history| else CAPACITY
      ensures |history| >= CAPACITY ==> fragments[nextSlot] == Window(history)[0].fragment
    {
      hide PayloadBytes, Slot;
      SlotsDiffer(|history|);
      if |history| >= CAPACITY {
        var k := |history| - CAPACITY;
        assert Window(history)[0] == history[k] && Slot(k) == nextSlot;
      }
    }

    method CountFragment(s: Seen)
      requires Counted(history) && s.fragment.pid < PID_COUNT
      modifies this`totals, pidFragmentCount
      ensures Counted(history + [s])
    {
      CountedMore(history, s);
      hide TotalsOf, CountPid, One;
      pidFragmentCount[s.fragment.pid] := pidFragmentCount[s.fragment.pid] + 1;
      totals := Totals(totals.tei + One(s.fragment.transportError), totals.pusi + One(s.fragment.payloadUnitStart),
                       totals.scrambled + One(s.fragment.scrambling != 0), totals.discontinuity + One(s.fragment.discontinuity),
                       totals.si + One(s.si), totals.video + One(s.video), totals.audio + One(s.audio));
    }
  }

  // ---------- The busiest PIDs ----------

  /** The stable descending order: more fragments first, among equals the lower PID. */
  predicate Before(counts: seq<nat>, a: nat, b: nat)
    requires a < |counts| && b < |counts|
  {
    counts[a] > counts[b] || (counts[a] == counts[b] && a < b)
  }

  /** PIDs ranked best first. */
  predicate RankedPids(counts: seq<nat>, n: nat, pids: seq<nat>)
    requires n <= |counts|
  {
    && (forall i :: 0 <= i < |pids| ==> pids[i] < n && counts[pids[i]] > 0)
    && forall i, j :: 0 <= i < j < |pids| ==> Before(counts, pids[i], pids[j])
  }

  /** The busiest of the first `n` PIDs, best first, at most eight: no active PID is missing but those ranked behind a
      full table. */
  predicate IsTop(counts: seq<nat>, n: nat, pids: seq<nat>)
    requires n <= |counts|
  {
    && |pids| <= TOP && RankedPids(counts, n, pids)
    && forall p :: 0 <= p < n && counts[p] > 0 && p !in pids ==> |pids| == TOP && Before(counts, pids[TOP - 1], p)
  }

  /** All PIDs in the stable descending order. */
  predicate Sorted(counts: seq<nat>, order: seq<nat>)
  {
    && |order| == |counts|
    && (forall i :: 0 <= i < |order| ==> order[i] < |counts|)
    && (forall i, j :: 0 <= i < j < |order| ==> Before(counts, order[i], order[j]))
    && forall p :: 0 <= p < |counts| ==> p in order
  }

  /** Apart from the first `j` of the table, nothing is ranked before its next entry. */
  lemma TopFirst(counts: seq<nat>, pids: seq<nat>, j: nat, p: nat)
    requires IsTop(counts, |counts|, pids) && j < |pids| && p < |counts| && counts[p] > 0
    requires forall i :: 0 <= i < j ==> pids[i] != p
    ensures p == pids[j] || Before(counts, pids[j], p)
  {
    if p in pids {
      var i :| 0 <= i < |pids| && pids[i] == p;
      assert j <= i;
    } else {
      assert j == TOP - 1 || Before(counts, pids[j], pids[TOP - 1]);
    }
  }

  /** Apart from the first `j` of the sort, nothing is ranked before its next entry. */
  lemma SortFirst(counts: seq<nat>, order: seq<nat>, j: nat, p: nat)
    requires Sorted(counts, order) && j < |order| && p < |counts|
    requires forall i :: 0 <= i < j ==> order[i] != p
    ensures p == order[j] || Before(counts, order[j], p)
  {
    assert p in order;
    var k :| 0 <= k < |order| && order[k] == p;
    assert j <= k;
  }

  lemma {:induction false} HeadAgrees(counts: seq<nat>, order: seq<nat>, pids: seq<nat>, n: nat)
    requires |counts| >= TOP && Sorted(counts, order) && IsTop(counts, |counts|, pids) && n <= |pids|
    ensures forall i :: 0 <= i < n ==> pids[i] == order[i]
  {
    if n > 0 {
      var j := n - 1;
      HeadAgrees(counts, order, pids, j);
      forall i | 0 <= i < j ensures pids[i] != pids[j] && order[i] != order[j] {
        assert Before(counts, pids[i], pids[j]) && Before(counts, order[i], order[j]);
      }
      SortFirst(counts, order, j, pids[j]);
      TopFirst(counts, pids, j, order[j]);
    }
  }

  /** The table is the head of the stable descending sort: its first eight places, cut where the counts reach zero. */
  lemma TopIsSortHead(counts: seq<nat>, order: seq<nat>, pids: seq<nat>)
    requires |counts| >= TOP && Sorted(counts, order) && IsTop(counts, |counts|, pids)
    ensures |pids| <= |order| && pids == order[..|pids|]
    ensures |pids| < TOP ==> forall i :: |pids| <= i < |order| ==> counts[order[i]] == 0
  {
    HeadAgrees(counts, order, pids, |pids|);
    forall i | |pids| <= i < |order| && |pids| < TOP ensures counts[order[i]] == 0 {
      forall k | 0 <= k < |pids| ensures pids[k] != order[i] {
        assert Before(counts, order[k], order[i]);
      }
    }
  }

  // ---------- The selection loop ----------

  /** The two arrays of the loop hold a table; places behind it count zero. */
  predicate Holds(counts: seq<nat>, pids: seq<nat>, topPid: seq<nat>, topCount: seq<nat>)
    requires forall i :: 0 <= i < |pids| ==> pids[i] < |counts|
  {
    && |topPid| == |topCount| == TOP && |pids| <= TOP
    && (forall j :: 0 <= j < |pids| ==> topPid[j] == pids[j] && topCount[j] == counts[pids[j]])
    && forall j :: |pids| <= j < TOP ==> topCount[j] == 0
  }

  /** The table with PID `n` put in at `pos` and, if need be, its last entry pushed out. */
  function Inserted(pids: seq<nat>, n: nat, pos: nat): seq<nat>
    requires pos <= |pids| <= TOP
  {
    var all := pids[..pos] + [n] + pids[pos..];
    if |all| <= TOP then all else all[..TOP]
  }

  lemma InsertedRanked(counts: seq<nat>, n: nat, pids: seq<nat>, pos: nat)
    requires n < |counts| && counts[n] > 0 && RankedPids(counts, n, pids) && pos <= |pids|
    requires forall i :: 0 <= i < pos ==> counts[pids[i]] >= counts[n]
    requires forall i :: pos <= i < |pids| ==> counts[pids[i]] < counts[n]
    ensures RankedPids(counts, n + 1, pids[..pos] + [n] + pids[pos..])
  {
    var all := pids[..pos] + [n] + pids[pos..];
    assert forall i :: 0 <= i < |all| ==> all[i] == if i < pos then pids[i] else if i == pos then n else pids[i - 1];
    forall i, j | 0 <= i < j < |all| ensures Before(counts, all[i], all[j]) {
      if i != pos && j != pos {
        var k, l := if i < pos then i else i - 1, if j < pos then j else j - 1;
        assert Before(counts, pids[k], pids[l]);
      }
    }
  }

  /** All entries, the newcomer among them, before the last is pushed out. */
  function Widened(pids: seq<nat>, n: nat, pos: nat): (all: seq<nat>)
    requires pos <= |pids|
    ensures |all| == |pids| + 1
    ensures forall i :: 0 <= i < |all| ==> all[i] == if i < pos then pids[i] else if i == pos then n else pids[i - 1]
  {
    pids[..pos] + [n] + pids[pos..]
  }

  lemma BestEight(counts: seq<nat>, n: nat, all: seq<nat>)
    requires n <= |counts| && RankedPids(counts, n, all)
    ensures RankedPids(counts, n, if |all| <= TOP then all else all[..TOP])
  {
    hide Before;
  }

  /** What is missing from the table is ranked behind its last entry. */
  lemma StillBehind(counts: seq<nat>, n: nat, pids: seq<nat>, pos: nat, p: nat)
    requires n < |counts| && IsTop(counts, n, pids) && pos <= |pids| && pos < TOP
    requires RankedPids(counts, n + 1, Widened(pids, n, pos))
    requires p < n && counts[p] > 0 && p !in Inserted(pids, n, pos)
    ensures |Inserted(pids, n, pos)| == TOP && Before(counts, Inserted(pids, n, pos)[TOP - 1], p)
  {
    var all, r := Widened(pids, n, pos), Inserted(pids, n, pos);
    assert forall i :: 0 <= i < |r| ==> r[i] == all[i];
    if p in pids {
      var i :| 0 <= i < |pids| && pids[i] == p;
      var k := if i < pos then i else i + 1;
      assert all[k] == p && k == TOP;
      assert Before(counts, all[TOP - 1], all[TOP]);
    } else {
      BehindLast(counts, n, pids, pos, p);
    }
  }

  lemma BehindLast(counts: seq<nat>, n: nat, pids: seq<nat>, pos: nat, p: nat)
    requires n < |counts| && IsTop(counts, n, pids) && pos <= |pids| && pos < TOP
    requires RankedPids(counts, n + 1, Widened(pids, n, pos))
    requires p < n && counts[p] > 0 && p !in pids
    ensures |Inserted(pids, n, pos)| == TOP && Before(counts, Inserted(pids, n, pos)[TOP - 1], p)
  {
    var all := Widened(pids, n, pos);
    assert |pids| == TOP && Before(counts, pids[TOP - 1], p);
    assert all[TOP] == pids[TOP - 1] && Before(counts, all[TOP - 1], all[TOP]);
    assert Inserted(pids, n, pos)[TOP - 1] == all[TOP - 1];
  }

  /** The table holds the newcomer and at most eight entries. */
  lemma NewcomerIn(pids: seq<nat>, n: nat, pos: nat)
    requires pos <= |pids| <= TOP && pos < TOP
    ensures |Inserted(pids, n, pos)| <= TOP && n in Inserted(pids, n, pos)
  {
    assert Inserted(pids, n, pos)[pos] == n;
  }

  lemma TableRanked(counts: seq<nat>, n: nat, pids: seq<nat>, pos: nat)
    requires n < |counts| && counts[n] > 0 && RankedPids(counts, n, pids) && pos <= |pids| <= TOP
    requires forall i :: 0 <= i < pos ==> counts[pids[i]] >= counts[n]
    requires forall i :: pos <= i < |pids| ==> counts[pids[i]] < counts[n]
    ensures RankedPids(counts, n + 1, Widened(pids, n, pos)) && RankedPids(counts, n + 1, Inserted(pids, n, pos))
  {
    InsertedRanked(counts, n, pids, pos);
    BestEight(counts, n + 1, Widened(pids, n, pos));
    hide RankedPids;
  }

  lemma InsertedIsTop(counts: seq<nat>, n: nat, pids: seq<nat>, pos: nat)
    requires n < |counts| && counts[n] > 0 && IsTop(counts, n, pids) && pos <= |pids| && pos < TOP
    requires forall i :: 0 <= i < pos ==> counts[pids[i]] >= counts[n]
    requires forall i :: pos <= i < |pids| ==> counts[pids[i]] < counts[n]
    ensures IsTop(counts, n + 1, Inserted(pids, n, pos))
  {
    TableRanked(counts, n, pids, pos);
    NewcomerIn(pids, n, pos);
    forall p | 0 <= p < n + 1 && counts[p] > 0 && p !in Inserted(pids, n, pos)
      ensures |Inserted(pids, n, pos)| == TOP && Before(counts, Inserted(pids, n, pos)[TOP - 1], p)
    {
      hide Inserted, Widened, RankedPids, IsTop;
      StillBehind(counts, n, pids, pos, p);
    }
    hide Inserted, Widened, RankedPids;
  }

  /** The selection loop of `print_hot_pids`. */
  method HotPids(counts: seq<nat>) returns (pids: seq<nat>)
    requires |counts| == PID_COUNT
    ensures IsTop(counts, PID_COUNT, pids)
  {
    hide IsTop;
    var topPid, topCount := new nat[TOP](_ => 0), new nat[TOP](_ => 0);
    ghost var table: seq<nat> := [];
    EmptyTop(counts);
    for pid := 0 to PID_COUNT
      invariant IsTop(counts, pid, table)
      invariant (forall i :: 0 <= i < |table| ==> table[i] < |counts|) && Holds(counts, table, topPid[..], topCount[..])
    {
      var count := counts[pid];
      if count == 0 || count <= topCount[7] {
        NotTop(counts, pid, table);
      } else {
        table := InsertTop(counts, pid, topPid, topCount, table);
        TopActive(counts, pid + 1, table);
      }
    }
    var n := 0;
    while n < 8 && topCount[n] > 0
      invariant n <= |table|
    {
      n := n + 1;
    }
    TopActive(counts, PID_COUNT, table);
    pids := topPid[..n];
    assert pids == table;
  }

  lemma EmptyTop(counts: seq<nat>)
    ensures IsTop(counts, 0, [])
  {
  }

  lemma TopActive(counts: seq<nat>, n: nat, pids: seq<nat>)
    requires n <= |counts| && IsTop(counts, n, pids)
    ensures |pids| <= TOP && forall i :: 0 <= i < |pids| ==> pids[i] < n && counts[pids[i]] > 0
    ensures forall i, j :: 0 <= i < j < |pids| ==> counts[pids[i]] >= counts[pids[j]]
  {
    assert forall i, j :: 0 <= i < j < |pids| ==> Before(counts, pids[i], pids[j]);
  }

  lemma NotTop(counts: seq<nat>, n: nat, pids: seq<nat>)
    requires n < |counts| && IsTop(counts, n, pids)
    requires counts[n] == 0 || (|pids| == TOP && counts[n] <= counts[pids[TOP - 1]])
    ensures IsTop(counts, n + 1, pids)
  {
  }

  /** `x` put in at `pos`, the last of eight pushed out. */
  predicate Shifted(s: seq<nat>, x: nat, pos: nat, s': seq<nat>)
  {
    && |s| == |s'| == TOP && (pos < TOP ==> s'[pos] == x)
    && (forall j :: 0 <= j < TOP && j < pos ==> s'[j] == s[j])
    && forall j :: pos < j < TOP ==> s'[j] == s[j - 1]
  }

  lemma HoldsInserted(counts: seq<nat>, n: nat, pids: seq<nat>, pos: nat, a: seq<nat>, b: seq<nat>, a': seq<nat>, b': seq<nat>)
    requires n < |counts| && pos <= |pids| <= TOP && pos < TOP && forall i :: 0 <= i < |pids| ==> pids[i] < |counts|
    requires Holds(counts, pids, a, b) && Shifted(a, n, pos, a') && Shifted(b, counts[n], pos, b')
    ensures forall i :: 0 <= i < |Inserted(pids, n, pos)| ==> Inserted(pids, n, pos)[i] < |counts|
    ensures Holds(counts, Inserted(pids, n, pos), a', b')
  {
    var r := Inserted(pids, n, pos);
    forall j | 0 <= j < |r| ensures r[j] < |counts| && a'[j] == r[j] && b'[j] == counts[r[j]] {
      var k := if j < pos then j else j - 1;
      assert r[j] == if j < pos then pids[j] else if j == pos then n else pids[j - 1];
      assert j != pos ==> a[k] == pids[k] && b[k] == counts[pids[k]];
    }
    forall j | |r| <= j < TOP ensures b'[j] == 0 {
      assert b[j - 1] == 0;
    }
  }

  /** Shifts lower entries down and puts the PID into the gap. */
  method Shift(count: nat, pid: nat, topPid: array<nat>, topCount: array<nat>) returns (pos: nat)
    requires topPid.Length == topCount.Length == TOP && topPid != topCount && count > topCount[7]
    modifies topPid, topCount
    ensures pos < TOP && Shifted(old(topPid[..]), pid, pos, topPid[..]) && Shifted(old(topCount[..]), count, pos, topCount[..])
    ensures pos > 0 ==> old(topCount[pos - 1]) >= count
    ensures old(topCount[pos]) < count
  {
    pos := 7;
    while pos > 0 && count > topCount[pos - 1]
      invariant pos <= 7 && old(topCount[pos]) < count
      invariant forall j :: 0 <= j <= pos ==> topPid[j] == old(topPid[j]) && topCount[j] == old(topCount[j])
      invariant forall j :: pos < j < TOP ==> topPid[j] == old(topPid[j - 1]) && topCount[j] == old(topCount[j - 1])
    {
      topCount[pos] := topCount[pos - 1];
      topPid[pos] := topPid[pos - 1];
      pos := pos - 1;
    }
    topCount[pos] := count;
    topPid[pos] := pid;
  }

  method InsertTop(counts: seq<nat>, pid: nat, topPid: array<nat>, topCount: array<nat>, ghost pids: seq<nat>)
    returns (ghost pids': seq<nat>)
    requires pid < |counts| && topPid.Length == topCount.Length == TOP && topPid != topCount && counts[pid] > topCount[7]
    requires IsTop(counts, pid, pids) && Holds(counts, pids, topPid[..], topCount[..])
    modifies topPid, topCount
    ensures IsTop(counts, pid + 1, pids') && Holds(counts, pids', topPid[..], topCount[..])
  {
    TopActive(counts, pid, pids);
    ghost var a, b := topPid[..], topCount[..];
    var pos := Shift(counts[pid], pid, topPid, topCount);
    assert pos <= |pids| by {
      assert pos > 0 ==> b[pos - 1] > 0;
    }
    InsertedIsTop(counts, pid, pids, pos);
    HoldsInserted(counts, pid, pids, pos, a, b, topPid[..], topCount[..]);
    pids' := Inserted(pids, pid, pos);
  }
}
