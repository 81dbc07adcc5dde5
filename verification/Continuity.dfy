// Continuity checking (src/continuity.c) and continuity rewriting (src/scatterfix.c:115-159),
// ISO/IEC 13818-1 section 2.4.3.3.
module Continuity {
  import opened Bytes
  import opened TsPackets
  import opened Statistics

  datatype PidContinuity = PidContinuity(
    seen: bool,
    lastCc: nat,
    packets: nat,
    missing: nat,
    duplicates: nat,
    outOfOrder: nat,
    discontinuities: nat)

  type CcWatch = t: seq<PidContinuity> | |t| == PID_COUNT witness seq(PID_COUNT, _ => PidContinuity(false, 0, 0, 0, 0, 0, 0))

  function BlankPid(): PidContinuity
  {
    PidContinuity(false, 0, 0, 0, 0, 0, 0)
  }

  function BlankWatch(): CcWatch
  {
    seq(PID_COUNT, _ => BlankPid())
  }

  /** How many packets a jump of the counter stands for, as this checker counts them. */
  function Gap(expected: nat, cc: nat): nat
    requires expected < 16 && cc < 16
  {
    (cc - expected) % 16 + 1
  }

  /** `continuity_observe` for the PID's own record. */
  function ObservePid(p: PidContinuity, pkt: TsPacket, stats: Stats): (r: (PidContinuity, Stats))
    requires pkt.continuityCounter < 16
  {
    var cc := pkt.continuityCounter;
    var q := p.(packets := p.packets + 1);
    var expected := (p.lastCc + 1) % 16;
    if pkt.discontinuityIndicator then
      (q.(discontinuities := p.discontinuities + 1, seen := true, lastCc := cc), stats)
    else if !pkt.hasPayload then (q, stats)
    else if !p.seen then (q.(seen := true, lastCc := cc), stats)
    else if cc == expected then (q.(lastCc := cc), stats)
    else if cc == p.lastCc then
      (q.(duplicates := p.duplicates + 1),
       stats.(duplicates := stats.duplicates + 1, continuityErrors := stats.continuityErrors + 1))
    else if Gap(expected, cc) <= 8 then
      (q.(missing := p.missing + Gap(expected, cc), lastCc := cc),
       stats.(missingPackets := stats.missingPackets + Gap(expected, cc), continuityErrors := stats.continuityErrors + 1))
    else
      (q.(outOfOrder := p.outOfOrder + 1, lastCc := cc),
       stats.(outOfOrder := stats.outOfOrder + 1, continuityErrors := stats.continuityErrors + 1))
  }

  /** After any number of lost payload packets this checker is off: it counts one too many when the loss leaves 1 to 7
      modulo 16, none otherwise, and so the number it adds to `missing` is right exactly when nothing was lost. */
  lemma LossMiscounted(p: PidContinuity, pkt: TsPacket, stats: Stats, lost: nat)
    requires p.seen && p.lastCc < 16 && pkt.hasPayload && !pkt.discontinuityIndicator
    requires pkt.continuityCounter == (p.lastCc + 1 + lost) % 16
    ensures var added := ObservePid(p, pkt, stats).0.missing - p.missing;
            && added == (if 1 <= lost % 16 <= 7 then lost % 16 + 1 else 0)
            && (added == lost <==> lost == 0)
  {
    var expected := (p.lastCc + 1) % 16;
    GapOf(p.lastCc + 1, lost);
    assert (pkt.continuityCounter - expected) % 16 == lost % 16;
  }

  lemma GapOf(next: nat, lost: nat)
    ensures ((next + lost) % 16 - next % 16) % 16 == lost % 16
  {
  }

  function ObserveCc(watch: CcWatch, pkt: TsPacket, stats: Stats): (r: (CcWatch, Stats))
    requires pkt.pid < PID_COUNT && pkt.continuityCounter < 16
  {
    if pkt.pid == NULL_PID then (watch, stats) else
    var (p, stats') := ObservePid(watch[pkt.pid], pkt, stats);
    (watch[pkt.pid := p], stats')
  }

  // ---------- Checking a whole stream ----------

  function WatchRun(raws: seq<Raw>): CcWatch
  {
    if raws == [] then BlankWatch() else
    var watch := WatchRun(raws[..|raws| - 1]);
    match Parse(raws[|raws| - 1])
    case None => watch
    case Some(pkt) => ObserveCc(watch, pkt, InitialStats()).0
  }

  function Errors(p: PidContinuity): nat
  {
    p.missing + p.duplicates + p.outOfOrder
  }

  predicate CarriesPayload(raw: Raw, pid: nat)
  {
    Parse(raw).Some? && Parse(raw).value.pid == pid && Parse(raw).value.hasPayload
  }

  /** An adaptation-only packet of the PID that announces a discontinuity: its counter is not a payload counter. */
  predicate Stray(raw: Raw, pid: nat)
  {
    Parse(raw).Some? && Parse(raw).value.pid == pid && !Parse(raw).value.hasPayload && Parse(raw).value.discontinuityIndicator
  }

  /** The counters of the payload packets of one PID. */
  function CcTrail(raws: seq<Raw>, pid: nat): (r: seq<nat>)
    ensures forall i :: 0 <= i < |r| ==> r[i] < 16
  {
    if raws == [] then [] else
    var last := raws[|raws| - 1];
    CcTrail(raws[..|raws| - 1], pid) + if CarriesPayload(last, pid) then [Parse(last).value.continuityCounter] else []
  }

  predicate Consecutive(trail: seq<nat>)
  {
    forall i :: 0 < i < |trail| ==> trail[i] == (trail[i - 1] + 1) % 16
  }

  /** The counter of the latest stray since the last payload packet. */
  function LastStray(raws: seq<Raw>, pid: nat): (r: Option<nat>)
    ensures r.Some? ==> r.value < 16
  {
    if raws == [] then None else
    var last := raws[|raws| - 1];
    if CarriesPayload(last, pid) then None
    else if Stray(last, pid) then Some(Parse(last).value.continuityCounter)
    else LastStray(raws[..|raws| - 1], pid)
  }

  /** The latest stray in front of each unmarked payload packet carries the counter just before that packet's. */
  predicate StraysFit(raws: seq<Raw>, pid: nat)
  {
    raws != [] ==>
      var rest, last := raws[..|raws| - 1], raws[|raws| - 1];
      && StraysFit(rest, pid)
      && (CarriesPayload(last, pid) && !Parse(last).value.discontinuityIndicator ==>
            Follows(Parse(last).value.continuityCounter, LastStray(rest, pid)))
  }

  function Last(trail: seq<nat>): Option<nat>
  {
    if trail == [] then None else Some(trail[|trail| - 1])
  }

  /** What the checker remembers of a PID: the counter of its latest stray, else of its last payload packet. */
  predicate WatchState(p: PidContinuity, last: Option<nat>, stray: Option<nat>)
  {
    && (p.seen <==> last.Some? || stray.Some?)
    && (stray.Some? ==> p.lastCc == stray.value)
    && (stray.None? && last.Some? ==> p.lastCc == last.value)
  }

  predicate Follows(cc: nat, last: Option<nat>)
  {
    last.Some? ==> cc == (last.value + 1) % 16
  }

  /** The record of one PID changes with the packets of that PID only. */
  lemma WatchRunStep(raws: seq<Raw>, pid: nat)
    requires raws != [] && pid < NULL_PID
    ensures var p, last := WatchRun(raws[..|raws| - 1])[pid], raws[|raws| - 1];
            WatchRun(raws)[pid] ==
            if Parse(last).Some? && Parse(last).value.pid == pid
            then ObservePid(p, Parse(last).value, InitialStats()).0
            else p
  {
  }

  /** A packet without payload on the PID: a stray becomes the checker's base, any other changes nothing. */
  lemma WatchIdle(p: PidContinuity, pkt: TsPacket, last: Option<nat>, stray: Option<nat>)
    requires pkt.continuityCounter < 16 && !pkt.hasPayload && WatchState(p, last, stray)
    ensures var q := ObservePid(p, pkt, InitialStats()).0;
            && WatchState(q, last, if pkt.discontinuityIndicator then Some(pkt.continuityCounter) else stray)
            && Errors(q) == Errors(p)
  {
  }

  lemma WatchStep(p: PidContinuity, pkt: TsPacket, last: Option<nat>, stray: Option<nat>)
    requires pkt.continuityCounter < 16 && pkt.hasPayload && WatchState(p, last, stray)
    requires Follows(pkt.continuityCounter, last) || stray.Some?
    ensures var q := ObservePid(p, pkt, InitialStats()).0;
            && WatchState(q, Some(pkt.continuityCounter), None)
            && (Errors(q) == 0 <==>
                  Errors(p) == 0 && (pkt.discontinuityIndicator || Follows(pkt.continuityCounter, stray)))
  {
  }

  lemma ConsecutiveLast(trail: seq<nat>, cc: nat)
    requires Consecutive(trail + [cc])
    ensures Consecutive(trail)
    ensures trail != [] ==> cc == (trail[|trail| - 1] + 1) % 16
  {
    var whole := trail + [cc];
    forall i | 0 < i < |trail| ensures trail[i] == (trail[i - 1] + 1) % 16 {
      assert whole[i] == (whole[i - 1] + 1) % 16;
    }
    if trail != [] {
      assert whole[|trail|] == (whole[|trail| - 1] + 1) % 16;
    }
  }

  /** The checker accepts a stream with consecutive payload counters exactly when every stray fits. */
  lemma {:induction false} ConsecutiveAccepted(raws: seq<Raw>, pid: nat)
    requires pid < NULL_PID && Consecutive(CcTrail(raws, pid))
    ensures WatchState(WatchRun(raws)[pid], Last(CcTrail(raws, pid)), LastStray(raws, pid))
    ensures Errors(WatchRun(raws)[pid]) == 0 <==> StraysFit(raws, pid)
  {
    if raws != [] {
      var rest, last := raws[..|raws| - 1], raws[|raws| - 1];
      WatchRunStep(raws, pid);
      if Parse(last).Some? && Parse(last).value.pid == pid {
        var pkt := Parse(last).value;
        hide Parse, ObservePid, WatchState, Consecutive;
        if pkt.hasPayload {
          ConsecutiveLast(CcTrail(rest, pid), pkt.continuityCounter);
          ConsecutiveAccepted(rest, pid);
          WatchStep(WatchRun(rest)[pid], pkt, Last(CcTrail(rest, pid)), LastStray(rest, pid));
        } else {
          assert CcTrail(raws, pid) == CcTrail(rest, pid);
          ConsecutiveAccepted(rest, pid);
          WatchIdle(WatchRun(rest)[pid], pkt, Last(CcTrail(rest, pid)), LastStray(rest, pid));
        }
      } else {
        assert CcTrail(raws, pid) == CcTrail(rest, pid);
        ConsecutiveAccepted(rest, pid);
      }
    }
  }

  /** A stream without strays that the counters of which run on is accepted. */
  lemma {:induction false} NoStraysFit(raws: seq<Raw>, pid: nat)
    requires forall i :: 0 <= i < |raws| ==> !Stray(raws[i], pid)
    ensures StraysFit(raws, pid) && LastStray(raws, pid).None?
  {
    if raws != [] {
      NoStraysFit(raws[..|raws| - 1], pid);
    }
  }

  // ---------- Rewriting ----------

  /** A counter as the tables hold it: they are only ever given masked values. */
  type nibble = x: int | 0 <= x < 16

  /** Per-PID "next counter" tables: `clean_next_cc` and `clean_video_next_cc` with their valid flags. */
  datatype CcArrays = CcArrays(valid: seq<bool>, next: seq<nibble>)

  predicate TableValid(t: CcArrays)
  {
    |t.valid| == |t.next| == PID_COUNT
  }

  type CcTable = t: CcArrays | TableValid(t) witness CcArrays(seq(PID_COUNT, _ => false), seq(PID_COUNT, _ => 0))

  function BlankTable(): CcTable
  {
    CcArrays(seq(PID_COUNT, _ => false), seq(PID_COUNT, _ => 0))
  }

  /** The counter the next packet of the PID gets: the table's, or `first` when the PID is new. */
  function NextCc(t: CcTable, pid: nat, first: nat): (cc: nat)
    requires pid < PID_COUNT && first < 16
    ensures cc < 16
  {
    if t.valid[pid] then t.next[pid] else first
  }

  function Advance(t: CcTable, pid: nat, cc: nat): CcTable
    requires pid < PID_COUNT
  {
    CcArrays(t.valid[pid := true], t.next[pid := (cc + 1) % 16])
  }
}
