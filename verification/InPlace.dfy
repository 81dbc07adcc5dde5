// The routines that rewrite a packet buffer in place (src/scatterfix.c:31-39, 115-276) and the
// continuity checker's table (src/continuity.c), each proved against its specification function.
module InPlace {
  import opened Bytes
  import opened TsPackets
  import opened Statistics
  import T = PsiTables
  import opened PsiContexts
  import C = Continuity
  import S = Timestamps
  import P = Pipeline

  method MakeNullPacket(raw: array<byte>)
    requires raw.Length == PACKET_SIZE
    modifies raw
    ensures raw[..] == NullPacket()
  {
    raw[0], raw[1], raw[2], raw[3] := SYNC_BYTE, 0x1f, 0xff, 0x10;
    for i := 4 to PACKET_SIZE
      invariant raw[0] == SYNC_BYTE && raw[1] == 0x1f && raw[2] == 0xff && raw[3] == 0x10
      invariant forall k :: 4 <= k < i ==> raw[k] == 0xff
    {
      raw[i] := 0xff;
    }
  }

  /** `memcpy(raw, cached, 188)`. */
  method CopyPacket(raw: array<byte>, cached: Raw)
    requires raw.Length == PACKET_SIZE
    modifies raw
    ensures raw[..] == cached
  {
    for i := 0 to PACKET_SIZE
      invariant forall k :: 0 <= k < i ==> raw[k] == cached[k]
    {
      raw[i] := cached[i];
    }
  }

  method SetCc(raw: array<byte>, cc: nat)
    requires raw.Length == PACKET_SIZE
    modifies raw
    ensures raw[..] == WithCc(old(raw[..]), cc)
  {
    raw[3] := raw[3] / 16 * 16 + cc % 16;
  }

  /** `clean_ts_rewrite_psi_cc`. */
  method RewritePsiCc(psi: PsiContext, pkt: TsPacket, raw: array<byte>, ccValid: array<bool>, nextCc: array<C.nibble>)
    requires raw.Length == PACKET_SIZE && pkt.pid < PID_COUNT
    requires ccValid.Length == nextCc.Length == PID_COUNT
    modifies raw, ccValid, nextCc
    ensures (C.CcArrays(ccValid[..], nextCc[..]), raw[..]) ==
            P.RewritePsiCc(psi.View(), pkt, old(raw[..]), C.CcArrays(old(ccValid[..]), old(nextCc[..])))
  {
    if !psi.IsKnownSi(pkt.pid) || !pkt.hasPayload {
      return;
    }
    if !ccValid[pkt.pid] {
      ccValid[pkt.pid] := true;
      nextCc[pkt.pid] := 0;
    }
    var cc := nextCc[pkt.pid];
    assert cc as nat == C.NextCc(C.CcArrays(old(ccValid[..]), old(nextCc[..])), pkt.pid, 0);
    SetCc(raw, cc);
    nextCc[pkt.pid] := (cc as int + 1) % 16;
    assert ccValid[..] == old(ccValid[..])[pkt.pid := true];
    assert nextCc[..] == old(nextCc[..])[pkt.pid := (cc as int + 1) % 16];
  }

  /** `clean_ts_rewrite_video_cc`; `changed` is what the statistics count. */
  method RewriteVideoCc(psi: PsiContext, pkt: TsPacket, raw: array<byte>, ccValid: array<bool>, nextCc: array<C.nibble>)
    returns (changed: bool)
    requires raw.Length == PACKET_SIZE && pkt.pid < PID_COUNT && pkt.continuityCounter < 16
    requires ccValid.Length == nextCc.Length == PID_COUNT
    modifies raw, ccValid, nextCc
    ensures (C.CcArrays(ccValid[..], nextCc[..]), raw[..], changed) ==
            P.RewriteVideoCc(psi.View(), pkt, old(raw[..]), C.CcArrays(old(ccValid[..]), old(nextCc[..])))
  {
    changed := false;
    if !pkt.hasPayload || !T.Listed(pkt.pid, psi.video) {
      return;
    }
    if !ccValid[pkt.pid] {
      ccValid[pkt.pid] := true;
      nextCc[pkt.pid] := pkt.continuityCounter;
    }
    var oldCc := N(raw[3]) % 16;
    var cc := nextCc[pkt.pid];
    assert cc as nat == C.NextCc(C.CcArrays(old(ccValid[..]), old(nextCc[..])), pkt.pid, pkt.continuityCounter);
    SetCc(raw, cc);
    nextCc[pkt.pid] := (cc as int + 1) % 16;
    assert ccValid[..] == old(ccValid[..])[pkt.pid := true];
    assert nextCc[..] == old(nextCc[..])[pkt.pid := (cc as int + 1) % 16];
    changed := oldCc != cc;
  }

  /** Stores `bytes` from `at` on. */
  method Store(raw: array<byte>, at: nat, bytes: seq<byte>)
    requires raw.Length == PACKET_SIZE && at + |bytes| <= PACKET_SIZE
    modifies raw
    ensures raw[..] == Splice(old(raw[..]), at, bytes)
  {
    for i := 0 to |bytes|
      invariant forall k :: 0 <= k < PACKET_SIZE ==> raw[k] == if at <= k < at + i then bytes[k - at] else old(raw[k])
    {
      raw[at + i] := bytes[i];
    }
  }

  class TimestampRepair {
    var ptsValid: bool
    var pcrValid: bool
    var nextPts: nat
    var nextPcr: nat

    ghost function View(): S.TimeState
      reads this
    {
      S.TimeState(ptsValid, pcrValid, nextPts, nextPcr)
    }

    constructor ()
      ensures View() == S.FreshTime()
    {
      ptsValid, pcrValid, nextPts, nextPcr := false, false, 0, 0;
    }

    method Init()
      modifies this
      ensures View() == S.FreshTime()
    {
      ptsValid, pcrValid, nextPts, nextPcr := false, false, 0, 0;
    }

    /** The clock reference half of `clean_ts_smooth_timestamps`. */
    method SmoothPcr(pkt: TsPacket, raw: array<byte>) returns (rewrite: bool)
      requires raw.Length == PACKET_SIZE
      modifies this, raw
      ensures (View(), raw[..], rewrite) == S.SmoothPcr(pkt, old(raw[..]), old(View()))
    {
      rewrite := false;
      if pkt.hasPcr && N(raw[3]) / 16 != 1 && N(raw[4]) >= 7 {
        var out := pkt.pcrBase;
        if !pcrValid {
          pcrValid := true;
          nextPcr := (pkt.pcrBase + S.PCR_TICKS) % U64;
        } else {
          var d := S.PtsDelta(pkt.pcrBase, nextPcr);
          if d < 0 || d > S.MAX_JUMP {
            out := nextPcr;
            rewrite := true;
          }
          nextPcr := (out + S.PCR_TICKS) % U64;
        }
        if rewrite {
          Store(raw, 6, S.PcrBytes(out));
        }
      }
    }

    /** The PTS and DTS half of `clean_ts_smooth_timestamps`. */
    method SmoothPts(pkt: TsPacket, raw: array<byte>) returns (rewrite: bool)
      requires raw.Length == PACKET_SIZE && Layout(pkt)
      modifies this, raw
      ensures (View(), raw[..], rewrite) == S.SmoothPts(pkt, old(raw[..]), old(View()))
    {
      hide S.OutOfPlace, S.ReadPts33, S.WritePts33, S.SmoothDts;
      rewrite := false;
      if !pkt.payloadUnitStart || !pkt.hasPayload || pkt.payloadSize < 14 {
        return;
      }
      var off := pkt.payloadOffset;
      if raw[off] != 0 || raw[off + 1] != 0 || raw[off + 2] != 1 {
        return;
      }
      if !Bit(raw[off + 7], 128) || off + 9 + N(raw[off + 8]) > PACKET_SIZE {
        return;
      }
      assert S.PtsSite(pkt, raw[..]) == Some(off + 9);
      var newPts;
      rewrite, newPts := StampPts(raw, off + 9);
      SmoothDts(raw, off + 9, newPts, rewrite);
    }

    /** Decides on the PTS found at `at` and stores the one that goes out. */
    method StampPts(raw: array<byte>, at: nat) returns (rewrite: bool, newPts: nat)
      requires raw.Length == PACKET_SIZE && at + 5 <= PACKET_SIZE
      modifies this, raw
      ensures var found := S.ReadPts33(old(raw[..]), at);
              && rewrite == S.OutOfPlace(old(ptsValid), found, old(nextPts))
              && newPts == (if rewrite then old(nextPts) else found)
              && View() == old(View()).(ptsValid := true, nextPts := (newPts + S.FRAME_TICKS) % U64)
              && raw[..] == if rewrite then S.WritePts33(old(raw[..]), at, newPts) else old(raw[..])
    {
      rewrite := false;
      var oldPts := S.ReadPts33(raw[..], at);
      newPts := oldPts;
      if !ptsValid {
        ptsValid := true;
        nextPts := (oldPts + S.FRAME_TICKS) % U64;
      } else {
        var d := S.PtsDelta(oldPts, nextPts);
        if d < 0 || d > S.MAX_JUMP {
          newPts := nextPts;
          rewrite := true;
        }
        nextPts := (newPts + S.FRAME_TICKS) % U64;
      }
      if rewrite {
        Store(raw, at, S.Pts33Bytes(raw[at], newPts));
      }
    }

    /** Pulls a DTS far from the presentation time next to it. */
    method SmoothDts(raw: array<byte>, at: nat, pts: nat, forced: bool)
      requires raw.Length == PACKET_SIZE && 9 <= at && at + 5 <= PACKET_SIZE
      modifies raw
      ensures raw[..] == S.SmoothDts(old(raw[..]), at, pts, forced)
    {
      if Bit(raw[at - 2], 64) && at + 10 <= PACKET_SIZE {
        var d := S.PtsDelta(S.ReadPts33(raw[..], at + 5), pts);
        if forced || d < -S.MAX_JUMP || d > S.MAX_JUMP {
          Store(raw, at + 5, S.Pts33Bytes(raw[at + 5], pts));
        }
      }
    }

    /** `clean_ts_smooth_timestamps`. */
    method Smooth(psi: PsiContext, pkt: TsPacket, raw: array<byte>) returns (pcrRewrite: bool, ptsRewrite: bool)
      requires raw.Length == PACKET_SIZE && Layout(pkt)
      modifies this, raw
      ensures S.Smoothed(View(), raw[..], pcrRewrite, ptsRewrite) ==
              S.Smooth(psi.View().video, pkt, old(raw[..]), old(View()))
    {
      pcrRewrite, ptsRewrite := false, false;
      if !T.Listed(pkt.pid, psi.video) {
        return;
      }
      pcrRewrite := SmoothPcr(pkt, raw);
      ptsRewrite := SmoothPts(pkt, raw);
    }
  }

  class ContinuityContext {
    const pid: array<C.PidContinuity>

    ghost predicate Valid()
    {
      pid.Length == PID_COUNT
    }

    ghost function View(): C.CcWatch
      requires Valid()
      reads pid
    {
      pid[..]
    }

    constructor ()
      ensures Valid() && fresh(pid) && View() == C.BlankWatch()
    {
      pid := new C.PidContinuity[PID_COUNT](_ => C.BlankPid());
    }

    /** `continuity_init`. */
    method Init()
      requires Valid()
      modifies pid
      ensures View() == C.BlankWatch()
    {
      for i := 0 to PID_COUNT
        invariant forall k :: 0 <= k < i ==> pid[k] == C.BlankPid()
      {
        pid[i] := C.BlankPid();
      }
    }

    /** `continuity_observe`. */
    method Observe(pkt: TsPacket, stats: Stats) returns (stats': Stats)
      requires Valid() && pkt.pid < PID_COUNT && pkt.continuityCounter < 16
      modifies pid
      ensures (View(), stats') == C.ObserveCc(old(View()), pkt, stats)
    {
      stats' := stats;
      if pkt.pid == NULL_PID {
        return;
      }
      var p := pid[pkt.pid];
      var cc := pkt.continuityCounter;
      p := p.(packets := p.packets + 1);
      if pkt.discontinuityIndicator {
        p := p.(discontinuities := p.discontinuities + 1, seen := true, lastCc := cc);
      } else if pkt.hasPayload {
        var expected := (p.lastCc + 1) % 16;
        if !p.seen {
          p := p.(seen := true, lastCc := cc);
        } else if cc == expected {
          p := p.(lastCc := cc);
        } else if cc == p.lastCc {
          p := p.(duplicates := p.duplicates + 1);
          stats' := stats.(duplicates := stats.duplicates + 1, continuityErrors := stats.continuityErrors + 1);
        } else {
          var delta := (cc - expected) % 16;
          if delta < 8 {
            p := p.(missing := p.missing + delta + 1, lastCc := cc);
            stats' := stats.(missingPackets := stats.missingPackets + delta + 1, continuityErrors := stats.continuityErrors + 1);
          } else {
            p := p.(outOfOrder := p.outOfOrder + 1, lastCc := cc);
            stats' := stats.(outOfOrder := stats.outOfOrder + 1, continuityErrors := stats.continuityErrors + 1);
          }
        }
      }
      pid[pkt.pid] := p;
      assert pid[..] == old(pid[..])[pkt.pid := p];
    }
  }
}
