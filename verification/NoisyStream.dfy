// What the framer makes of packets with noise between them (src/scatterfix.c:421-443).
module NoisyStreams {
  import opened Bytes
  import opened Framing

  /** A packet and the noise in front of it. */
  datatype Piece = Piece(noise: seq<byte>, packet: Raw)

  /** Noise in front of packets, noise at the end, and the beginning of a packet. */
  datatype Noisy = Noisy(pieces: seq<Piece>, noise: seq<byte>, tail: seq<byte>)

  predicate Quiet(noise: seq<byte>)
  {
    0x47 !in noise
  }

  predicate PiecesOk(pieces: seq<Piece>)
  {
    forall i :: 0 <= i < |pieces| ==> Quiet(pieces[i].noise) && pieces[i].packet[0] == 0x47
  }

  predicate NoisyOk(n: Noisy)
  {
    PiecesOk(n.pieces) && Quiet(n.noise) && (n.tail != [] ==> n.tail[0] == 0x47 && |n.tail| < 188)
  }

  function StreamOf(n: Noisy): seq<byte>
    decreases |n.pieces|
  {
    if n.pieces == [] then n.noise + n.tail
    else n.pieces[0].noise + (n.pieces[0].packet + StreamOf(n.(pieces := n.pieces[1..])))
  }

  function Packets(pieces: seq<Piece>): seq<Raw>
    decreases |pieces|
  {
    if pieces == [] then [] else [pieces[0].packet] + Packets(pieces[1..])
  }

  /** All noise together. */
  function Loudness(n: Noisy): nat
    decreases |n.pieces|
  {
    if n.pieces == [] then |n.noise| else |n.pieces[0].noise| + Loudness(n.(pieces := n.pieces[1..]))
  }

  /** How many places are noisy. */
  function Places(n: Noisy): nat
    decreases |n.pieces|
  {
    if n.pieces == [] then (if n.noise == [] then 0 else 1)
    else (if n.pieces[0].noise == [] then 0 else 1) + Places(n.(pieces := n.pieces[1..]))
  }

  /** Noise is skipped up to the first sync byte. */
  lemma {:induction false} NoiseSkipped(noise: seq<byte>, rest: seq<byte>)
    requires Quiet(noise)
    ensures var f, g := Frame(noise + rest), Frame(rest);
            f.packets == g.packets && f.tail == g.tail && f.skipped == seq(|noise|, _ => true) + g.skipped
    decreases |noise|
  {
    if noise == [] {
      assert noise + rest == rest;
    } else {
      NoiseSkipped(noise[1..], rest);
      assert (noise + rest)[1..] == noise[1..] + rest && (noise + rest)[0] == noise[0];
      assert [true] + seq(|noise| - 1, _ => true) == seq(|noise|, _ => true);
    }
  }

  lemma {:induction false} Marks(n: nat, rest: seq<bool>, before: bool)
    ensures Count(seq(n, _ => true) + rest) == n + Count(rest)
    ensures Runs(seq(n, _ => true) + rest, before) == if n == 0 then Runs(rest, before) else (if before then 0 else 1) + Runs(rest, true)
  {
    var marks := seq(n, _ => true) + rest;
    if n == 0 {
      assert marks == rest;
    } else {
      assert marks[1..] == seq(n - 1, _ => true) + rest;
      Marks(n - 1, rest, true);
    }
  }

  /** A packet at the front of a stream. */
  lemma PacketFirst(packet: Raw, rest: seq<byte>)
    requires packet[0] == 0x47
    ensures var f, g := Frame(packet + rest), Frame(rest);
            f.packets == [packet] + g.packets && f.tail == g.tail && f.skipped == seq(PACKET_SIZE, _ => false) + g.skipped
  {
    assert (packet + rest)[..PACKET_SIZE] == packet && (packet + rest)[PACKET_SIZE..] == rest;
    assert (packet + rest)[0] == packet[0];
  }

  lemma TailFramed(tail: seq<byte>)
    requires tail != [] ==> tail[0] == 0x47 && |tail| < 188
    ensures Frame(tail) == Framed([], seq(|tail|, _ => false), tail)
  {
  }

  /** The framer finds exactly the packets, skips exactly the noise, counts each noisy place once, and keeps the beginning of
      the packet at the end. */
  lemma {:induction false} NoisyFramed(n: Noisy)
    requires NoisyOk(n)
    ensures var f := Frame(StreamOf(n));
            && f.packets == Packets(n.pieces) && f.tail == n.tail
            && Count(f.skipped) == Loudness(n) && Runs(f.skipped, false) == Places(n)
    decreases |n.pieces|
  {
    hide Frame, Count, Runs;
    if n.pieces == [] {
      NoiseSkipped(n.noise, n.tail);
      TailFramed(n.tail);
      var marks := seq(|n.tail|, _ => false);
      Marks(|n.noise|, marks, false);
      assert marks + [] == marks;
      NoMarks(|n.tail|, [], true);
      NoMarks(|n.tail|, [], false);
      NothingMarked();
    } else {
      var p, rest := n.pieces[0], n.(pieces := n.pieces[1..]);
      NoisyFramed(rest);
      NoiseSkipped(p.noise, p.packet + StreamOf(rest));
      PacketFirst(p.packet, StreamOf(rest));
      var marks := Frame(StreamOf(rest)).skipped;
      Marks(|p.noise|, seq(PACKET_SIZE, _ => false) + marks, false);
      NoMarks(PACKET_SIZE, marks, true);
      NoMarks(PACKET_SIZE, marks, false);
    }
  }

  lemma NothingMarked()
    ensures Count([]) == 0 && forall before :: Runs([], before) == 0
  {
  }

  /** Every stream is such a stream. */
  lemma {:induction false} EveryStreamNoisy(data: seq<byte>) returns (n: Noisy)
    ensures NoisyOk(n) && StreamOf(n) == data
    decreases |data|
  {
    if data == [] {
      n := Noisy([], [], []);
    } else if data[0] != 0x47 {
      n := EveryStreamNoisy(data[1..]);
      assert data == [data[0]] + data[1..];
      n := Louder(data[0], n);
    } else if |data| < PACKET_SIZE {
      n := Noisy([], [], data);
    } else {
      var rest := EveryStreamNoisy(data[PACKET_SIZE..]);
      var piece := Piece([], data[..PACKET_SIZE]);
      n := rest.(pieces := [piece] + rest.pieces);
      assert n.pieces[1..] == rest.pieces;
      assert data == data[..PACKET_SIZE] + data[PACKET_SIZE..];
    }
  }

  /** One more byte of noise in front. */
  lemma Louder(b: byte, n: Noisy) returns (r: Noisy)
    requires NoisyOk(n) && b != 0x47
    ensures NoisyOk(r) && StreamOf(r) == [b] + StreamOf(n)
  {
    if n.pieces == [] {
      r := n.(noise := [b] + n.noise);
    } else {
      var p := n.pieces[0];
      r := n.(pieces := [p.(noise := [b] + p.noise)] + n.pieces[1..]);
      assert r.pieces[1..] == n.pieces[1..];
      var rest := p.packet + StreamOf(n.(pieces := n.pieces[1..]));
      assert [b] + p.noise + rest == [b] + (p.noise + rest);
    }
  }
}
