// Cutting a byte stream into packets (src/scatterfix.c:421-443, src/recovery.c:336-349).
module Framing {
  import opened Bytes

  /** Bytes of the packet being gathered, and what has been skipped so far. */
  datatype FramerState = FramerState(pending: seq<byte>, skipping: bool, bytesDropped: nat, resyncCount: nat)

  predicate FramerValid(f: FramerState)
  {
    && |f.pending| < PACKET_SIZE
    && (f.pending != [] ==> f.pending[0] == SYNC_BYTE && !f.skipping)
  }

  type Framer = f: FramerState | FramerValid(f) witness FramerState([], false, 0, 0)

  function InitialFramer(): Framer
  {
    FramerState([], false, 0, 0)
  }

  /** One byte: dropped when it cannot start a packet, otherwise gathered; the 188th completes a packet. */
  function Push(f: Framer, b: byte): (r: (Framer, Option<Raw>))
  {
    if f.pending == [] && b != SYNC_BYTE then
      (f.(skipping := true, bytesDropped := f.bytesDropped + 1,
          resyncCount := f.resyncCount + if f.skipping then 0 else 1), None)
    else
      var gathered := f.pending + [b];
      if |gathered| == PACKET_SIZE
      then (f.(pending := [], skipping := false), Some(gathered))
      else (f.(pending := gathered, skipping := false), None)
  }

  // ---------- A reference framing of a whole stream ----------

  /** The packets of a stream, which of its bytes were skipped, and the unfinished packet at its end. */
  datatype Framed = Framed(packets: seq<Raw>, skipped: seq<bool>, tail: seq<byte>)

  function Frame(data: seq<byte>): (r: Framed)
    ensures |r.skipped| == |data|
    ensures |r.tail| < PACKET_SIZE
    ensures forall p :: p in r.packets ==> p[0] == SYNC_BYTE
  {
    if data == [] then Framed([], [], [])
    else if data[0] != SYNC_BYTE then
      var rest := Frame(data[1..]);
      rest.(skipped := [true] + rest.skipped)
    else if |data| < PACKET_SIZE then Framed([], seq(|data|, _ => false), data)
    else
      var rest := Frame(data[PACKET_SIZE..]);
      rest.(packets := [data[..PACKET_SIZE]] + rest.packets, skipped := seq(PACKET_SIZE, _ => false) + rest.skipped)
  }

  function Count(marks: seq<bool>): nat
  {
    if marks == [] then 0 else (if marks[0] then 1 else 0) + Count(marks[1..])
  }

  /** Number of maximal runs of skipped bytes; `before` says whether the byte in front was skipped too. */
  function Runs(marks: seq<bool>, before: bool): nat
  {
    if marks == [] then 0 else (if marks[0] && !before then 1 else 0) + Runs(marks[1..], marks[0])
  }

  /** Whether the last byte of the stream was skipped. */
  predicate EndsSkipping(marks: seq<bool>, before: bool)
  {
    if marks == [] then before else marks[|marks| - 1]
  }

  lemma {:induction false} NoMarks(n: nat, rest: seq<bool>, before: bool)
    ensures Count(seq(n, _ => false) + rest) == Count(rest)
    ensures Runs(seq(n, _ => false) + rest, before) == Runs(rest, before && n == 0)
  {
    var marks := seq(n, _ => false) + rest;
    if n == 0 {
      assert marks == rest;
    } else {
      assert marks[1..] == seq(n - 1, _ => false) + rest;
      NoMarks(n - 1, rest, false);
    }
  }

  /** Each byte of a stream lands in exactly one place: a packet, a skipped run or the tail. */
  lemma {:induction false} FrameConserves(data: seq<byte>)
    ensures |data| == PACKET_SIZE * |Frame(data).packets| + Count(Frame(data).skipped) + |Frame(data).tail|
  {
    if data != [] {
      if data[0] != SYNC_BYTE {
        FrameConserves(data[1..]);
        assert Frame(data).skipped[1..] == Frame(data[1..]).skipped;
      } else if |data| < PACKET_SIZE {
        NoMarks(|data|, [], false);
        assert seq(|data|, _ => false) + [] == seq(|data|, _ => false);
      } else {
        FrameConserves(data[PACKET_SIZE..]);
        NoMarks(PACKET_SIZE, Frame(data[PACKET_SIZE..]).skipped, false);
      }
    }
  }

  function Concat(packets: seq<Raw>): seq<byte>
    decreases |packets|
  {
    if packets == [] then [] else packets[0] + Concat(packets[1..])
  }

  /** A stream of aligned packets is framed without loss. */
  lemma {:induction false} AlignedStream(packets: seq<Raw>)
    requires forall i :: 0 <= i < |packets| ==> packets[i][0] == SYNC_BYTE
    ensures Frame(Concat(packets)).packets == packets
    ensures Count(Frame(Concat(packets)).skipped) == 0 && Frame(Concat(packets)).tail == []
    decreases |packets|
  {
    if packets != [] {
      AlignedStream(packets[1..]);
      FrameOfPacket(packets[0], Concat(packets[1..]));
      NoMarks(PACKET_SIZE, Frame(Concat(packets[1..])).skipped, false);
      assert packets == [packets[0]] + packets[1..];
    }
  }

  // ---------- Feeding a machine that takes packets ----------

  /** A machine behind the framer: `step` handles one packet and tells whether it succeeded. */
  datatype Fed<S> = Fed(st: S, framer: Framer, failed: bool)

  /** One byte of the feed loop; after a failure nothing more is consumed. */
  function FeedByte<S>(step: (S, Raw) -> (S, bool), c: Fed<S>, b: byte): Fed<S>
  {
    if c.failed then c else
    var (framer, packet) := Push(c.framer, b);
    match packet
    case None => c.(framer := framer)
    case Some(raw) =>
      var (st, ok) := step(c.st, raw);
      Fed(st, framer, !ok)
  }

  function FeedBytes<S>(step: (S, Raw) -> (S, bool), c: Fed<S>, data: seq<byte>): Fed<S>
    decreases |data|
  {
    if data == [] then c else FeedByte(step, FeedBytes(step, c, data[..|data| - 1]), data[|data| - 1])
  }

  // ---------- Chunking ----------

  /** Cutting the input differently changes nothing. */
  lemma {:induction false} FeedChunks<S(!new)>(step: (S, Raw) -> (S, bool), c: Fed<S>, a: seq<byte>, b: seq<byte>)
    ensures FeedBytes(step, c, a + b) == FeedBytes(step, FeedBytes(step, c, a), b)
  {
    if b == [] {
      assert a + b == a;
    } else {
      assert (a + b)[..|a + b| - 1] == a + b[..|b| - 1];
      FeedChunks(step, c, a, b[..|b| - 1]);
    }
  }

  function Flatten(chunks: seq<seq<byte>>): seq<byte>
  {
    if chunks == [] then [] else Flatten(chunks[..|chunks| - 1]) + chunks[|chunks| - 1]
  }

  function FeedAll<S(!new)>(step: (S, Raw) -> (S, bool), c: Fed<S>, chunks: seq<seq<byte>>): Fed<S>
  {
    if chunks == [] then c else FeedBytes(step, FeedAll(step, c, chunks[..|chunks| - 1]), chunks[|chunks| - 1])
  }

  /** Two ways of cutting the same bytes end in the same state, output included. */
  lemma {:induction false} ChunkingIrrelevant<S(!new)>(step: (S, Raw) -> (S, bool), c: Fed<S>, chunks: seq<seq<byte>>)
    ensures FeedAll(step, c, chunks) == FeedBytes(step, c, Flatten(chunks))
  {
    if chunks != [] {
      ChunkingIrrelevant(step, c, chunks[..|chunks| - 1]);
      FeedChunks(step, c, Flatten(chunks[..|chunks| - 1]), chunks[|chunks| - 1]);
    }
  }

  lemma FeedOne<S(!new)>(step: (S, Raw) -> (S, bool), c: Fed<S>, b: byte)
    ensures FeedBytes(step, c, [b]) == FeedByte(step, c, b)
  {
    assert [b][..0] == [];
  }

  /** Gathering bytes of one packet, short of its end. */
  lemma {:induction false} Gather<S(!new)>(step: (S, Raw) -> (S, bool), c: Fed<S>, s: seq<byte>)
    requires !c.failed && s != [] && |c.framer.pending| + |s| < PACKET_SIZE
    requires c.framer.pending == [] ==> s[0] == SYNC_BYTE
    ensures FeedBytes(step, c, s) == c.(framer := c.framer.(pending := c.framer.pending + s, skipping := false))
  {
    if |s| == 1 {
      FeedOne(step, c, s[0]);
      assert s == [s[0]];
    } else {
      var front := s[..|s| - 1];
      Gather(step, c, front);
      assert c.framer.pending + s == c.framer.pending + front + [s[|s| - 1]];
    }
  }

  /** Gathering bytes up to the end of one packet. */
  lemma Complete<S(!new)>(step: (S, Raw) -> (S, bool), c: Fed<S>, s: seq<byte>)
    requires !c.failed && s != [] && |c.framer.pending| + |s| == PACKET_SIZE
    requires c.framer.pending == [] ==> s[0] == SYNC_BYTE
    ensures var (st, ok) := step(c.st, c.framer.pending + s);
            FeedBytes(step, c, s) == Fed(st, c.framer.(pending := [], skipping := false), !ok)
  {
    var front := s[..|s| - 1];
    assert c.framer.pending + s == c.framer.pending + front + [s[|s| - 1]];
    if front != [] {
      Gather(step, c, front);
    } else {
      assert c.framer.pending + front == c.framer.pending;
    }
  }

  // ---------- The packets of a stream ----------

  function ProcessAll<S(!new)>(step: (S, Raw) -> (S, bool), st: S, raws: seq<Raw>): (S, bool)
    decreases |raws|
  {
    if raws == [] then (st, true) else
    var (st1, ok) := step(st, raws[0]);
    if ok then ProcessAll(step, st1, raws[1..]) else (st1, false)
  }

  lemma {:induction false} FailedStays<S(!new)>(step: (S, Raw) -> (S, bool), c: Fed<S>, data: seq<byte>)
    requires c.failed
    ensures FeedBytes(step, c, data) == c
  {
    if data != [] {
      FailedStays(step, c, data[..|data| - 1]);
    }
  }

  /** What feeding a stream at a packet boundary leaves, told by the reference framing. */
  function Expected<S(!new)>(step: (S, Raw) -> (S, bool), c: Fed<S>, f: Framed): Fed<S>
    requires TailValid(f, c.framer.skipping)
  {
    Fed(ProcessAll(step, c.st, f.packets).0,
        FramerState(f.tail, EndsSkipping(f.skipped, c.framer.skipping),
                    c.framer.bytesDropped + Count(f.skipped), c.framer.resyncCount + Runs(f.skipped, c.framer.skipping)),
        false)
  }

  lemma {:induction false} FrameTail(data: seq<byte>, before: bool)
    ensures TailValid(Frame(data), before)
  {
    if data != [] {
      if data[0] != SYNC_BYTE {
        FrameTail(data[1..], true);
      } else if |data| >= PACKET_SIZE {
        FrameTail(data[PACKET_SIZE..], false);
      }
    }
  }

  /** The outcome of feeding `data` is the one the reference framing predicts. */
  ghost predicate AsFramed<S(!new)>(step: (S, Raw) -> (S, bool), c: Fed<S>, f: Framed, r: Fed<S>)
    requires TailValid(f, c.framer.skipping)
  {
    var (st, ok) := ProcessAll(step, c.st, f.packets);
    if ok then r == Expected(step, c, f) else r.failed && r.st == st
  }

  lemma FeedFirst<S(!new)>(step: (S, Raw) -> (S, bool), c: Fed<S>, data: seq<byte>)
    requires data != []
    ensures FeedBytes(step, c, data) == FeedBytes(step, FeedByte(step, c, data[0]), data[1..])
  {
    assert data == [data[0]] + data[1..];
    FeedChunks(step, c, [data[0]], data[1..]);
    FeedOne(step, c, data[0]);
  }

  lemma MarkFirst(marks: seq<bool>, before: bool)
    ensures Count([true] + marks) == 1 + Count(marks)
    ensures Runs([true] + marks, before) == (if before then 0 else 1) + Runs(marks, true)
    ensures EndsSkipping([true] + marks, before) == EndsSkipping(marks, true)
  {
    assert ([true] + marks)[1..] == marks;
  }

  predicate TailValid(f: Framed, before: bool)
  {
    FramerValid(FramerState(f.tail, EndsSkipping(f.skipped, before), 0, 0))
  }

  lemma SkipFramed<S(!new)>(step: (S, Raw) -> (S, bool), c: Fed<S>, f: Framed, r: Fed<S>)
    requires !c.failed && c.framer.pending == [] && TailValid(f, true)
    requires AsFramed(step, c.(framer := FramerState([], true, c.framer.bytesDropped + 1,
                                                       c.framer.resyncCount + if c.framer.skipping then 0 else 1)), f, r)
    ensures TailValid(f.(skipped := [true] + f.skipped), c.framer.skipping)
    ensures AsFramed(step, c, f.(skipped := [true] + f.skipped), r)
  {
    MarkFirst(f.skipped, c.framer.skipping);
  }

  lemma EndsAfterPacket(marks: seq<bool>, before: bool)
    ensures EndsSkipping(seq(PACKET_SIZE, _ => false) + marks, before) == EndsSkipping(marks, false)
  {
  }

  function WithPacket(raw: Raw, f: Framed): Framed
  {
    f.(packets := [raw] + f.packets, skipped := seq(PACKET_SIZE, _ => false) + f.skipped)
  }

  lemma PacketFramed<S(!new)>(step: (S, Raw) -> (S, bool), c: Fed<S>, raw: Raw, f: Framed, r: Fed<S>)
    requires !c.failed && c.framer.pending == [] && TailValid(f, false)
    requires step(c.st, raw).1
    requires AsFramed(step, Fed(step(c.st, raw).0, c.framer.(skipping := false), false), f, r)
    ensures TailValid(WithPacket(raw, f), c.framer.skipping)
    ensures AsFramed(step, c, WithPacket(raw, f), r)
  {
    EndsAfterPacket(f.skipped, c.framer.skipping);
    NoMarks(PACKET_SIZE, f.skipped, c.framer.skipping);
    assert WithPacket(raw, f).packets[1..] == f.packets;
  }

  lemma ShortFramed<S(!new)>(step: (S, Raw) -> (S, bool), c: Fed<S>, data: seq<byte>)
    requires !c.failed && c.framer.pending == []
    requires 0 < |data| < PACKET_SIZE && data[0] == SYNC_BYTE
    ensures TailValid(Frame(data), c.framer.skipping)
    ensures AsFramed(step, c, Frame(data), FeedBytes(step, c, data))
  {
    ShortFrame(data);
    hide Frame, FeedBytes, ProcessAll, Count, Runs, EndsSkipping, AsFramed, TailValid;
    Unmarked(|data|, c.framer.skipping);
    ShortAs(step, c, data, Frame(data).skipped);
  }

  lemma ShortAs<S(!new)>(step: (S, Raw) -> (S, bool), c: Fed<S>, data: seq<byte>, marks: seq<bool>)
    requires !c.failed && c.framer.pending == []
    requires 0 < |data| < PACKET_SIZE && data[0] == SYNC_BYTE
    requires var before := c.framer.skipping; Count(marks) == 0 && Runs(marks, before) == 0 && !EndsSkipping(marks, before)
    ensures TailValid(Framed([], marks, data), c.framer.skipping)
    ensures AsFramed(step, c, Framed([], marks, data), FeedBytes(step, c, data))
  {
    hide FeedBytes, Count, Runs, EndsSkipping, ProcessAll;
    Gather(step, c, data);
    assert c.framer.pending + data == data;
    NothingYet(step, c.st);
  }

  lemma ShortFrame(data: seq<byte>)
    requires 0 < |data| < PACKET_SIZE && data[0] == SYNC_BYTE
    ensures Frame(data) == Framed([], seq(|data|, _ => false), data)
  {
  }

  lemma Unmarked(n: nat, before: bool)
    requires n > 0
    ensures var marks := seq(n, _ => false); Count(marks) == 0 && Runs(marks, before) == 0 && !EndsSkipping(marks, before)
  {
    NoMarks(n, [], before);
    assert seq(n, _ => false) + [] == seq(n, _ => false);
  }

  lemma NothingYet<S(!new)>(step: (S, Raw) -> (S, bool), st: S)
    ensures ProcessAll(step, st, []) == (st, true)
  {
  }

  lemma FailedFramed<S(!new)>(step: (S, Raw) -> (S, bool), c: Fed<S>, raw: Raw, f: Framed)
    requires !step(c.st, raw).1 && TailValid(WithPacket(raw, f), c.framer.skipping)
    ensures forall r: Fed<S> :: r.failed && r.st == step(c.st, raw).0 ==> AsFramed(step, c, WithPacket(raw, f), r)
  {
  }

  /** The packet case of `FeedIsFrame`, given that the rest of the bytes obey it. */
  lemma PacketFirst<S(!new)>(step: (S, Raw) -> (S, bool), c: Fed<S>, raw: Raw, rest: seq<byte>)
    requires !c.failed && c.framer.pending == [] && raw[0] == SYNC_BYTE
    requires var (st, ok) := step(c.st, raw);
             var c1 := Fed(st, c.framer.(skipping := false), false);
             ok ==> TailValid(Frame(rest), false) && AsFramed(step, c1, Frame(rest), FeedBytes(step, c1, rest))
    ensures TailValid(WithPacket(raw, Frame(rest)), c.framer.skipping)
    ensures AsFramed(step, c, WithPacket(raw, Frame(rest)), FeedBytes(step, c, raw + rest))
  {
    assert c.framer.pending + raw == raw;
    FeedChunks(step, c, raw, rest);
    Complete(step, c, raw);
    FrameTail(rest, false);
    EndsAfterPacket(Frame(rest).skipped, c.framer.skipping);
    var c1 := FeedBytes(step, c, raw);
    if c1.failed {
      FailedStays(step, c1, rest);
      FailedFramed(step, c, raw, Frame(rest));
    } else {
      PacketFramed(step, c, raw, Frame(rest), FeedBytes(step, c, raw + rest));
    }
  }

  /** Feeding `data` at a packet boundary is framing it and processing its packets in order. */
  ghost predicate FramesRight<S(!new)>(step: (S, Raw) -> (S, bool), c: Fed<S>, data: seq<byte>)
  {
    TailValid(Frame(data), c.framer.skipping) && AsFramed(step, c, Frame(data), FeedBytes(step, c, data))
  }

  lemma SkipFirst<S(!new)>(step: (S, Raw) -> (S, bool), c: Fed<S>, data: seq<byte>)
    requires !c.failed && c.framer.pending == [] && data != [] && data[0] != SYNC_BYTE
    requires FramesRight(step, FeedByte(step, c, data[0]), data[1..])
    ensures FramesRight(step, c, data)
  {
    SkipByte(step, c, data[0]);
    FrameOfSkip(data);
    FeedFirst(step, c, data);
    hide AsFramed, TailValid, Frame, FeedByte, FeedBytes;
    SkipFramed(step, c, Frame(data[1..]), FeedBytes(step, c, data));
  }

  lemma SkipByte<S(!new)>(step: (S, Raw) -> (S, bool), c: Fed<S>, b: byte)
    requires !c.failed && c.framer.pending == [] && b != SYNC_BYTE
    ensures FeedByte(step, c, b) == c.(framer := FramerState([], true, c.framer.bytesDropped + 1,
                                                             c.framer.resyncCount + if c.framer.skipping then 0 else 1))
  {
  }

  lemma FrameOfSkip(data: seq<byte>)
    requires data != [] && data[0] != SYNC_BYTE
    ensures Frame(data) == Frame(data[1..]).(skipped := [true] + Frame(data[1..]).skipped)
  {
  }

  lemma FrameOfPacket(raw: Raw, rest: seq<byte>)
    requires raw[0] == SYNC_BYTE
    ensures Frame(raw + rest) == WithPacket(raw, Frame(rest))
  {
    assert (raw + rest)[..PACKET_SIZE] == raw && (raw + rest)[PACKET_SIZE..] == rest;
  }

  lemma FrameOfShort<S(!new)>(step: (S, Raw) -> (S, bool), c: Fed<S>, data: seq<byte>)
    requires !c.failed && c.framer.pending == [] && |data| < PACKET_SIZE
    requires data != [] ==> data[0] == SYNC_BYTE
    ensures FramesRight(step, c, data)
  {
    if data != [] {
      ShortFramed(step, c, data);
    }
  }

  lemma {:induction false} FeedIsFrame<S(!new)>(step: (S, Raw) -> (S, bool), c: Fed<S>, data: seq<byte>)
    requires !c.failed && c.framer.pending == []
    ensures FramesRight(step, c, data)
    decreases |data|
  {
    if data != [] && data[0] != SYNC_BYTE {
      FeedIsFrame(step, FeedByte(step, c, data[0]), data[1..]);
      SkipFirst(step, c, data);
    } else if |data| < PACKET_SIZE {
      FrameOfShort(step, c, data);
    } else {
      var raw, rest := data[..PACKET_SIZE], data[PACKET_SIZE..];
      var (st, ok) := step(c.st, raw);
      if ok {
        FeedIsFrame(step, Fed(st, c.framer.(skipping := false), false), rest);
      }
      PacketFirst(step, c, raw, rest);
      FrameOfPacket(raw, rest);
      assert raw + rest == data;
    }
  }
}
