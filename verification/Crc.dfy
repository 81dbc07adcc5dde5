// The MPEG-2 CRC-32 of PSI sections (src/psi.c:10-19), ISO/IEC 13818-1 Annex A.
// The 32-bit register is kept as its bits, most significant first, so `crc << 1`
// drops the first bit and `^` works place by place.
module Crc {
  import opened Bytes

  type Register = r: seq<bool> | |r| == 32 witness seq(32, _ => false)

  function Zeros(n: nat): seq<bool>
  {
    seq(n, _ => false)
  }

  function Zero(): Register
  {
    Zeros(32)
  }

  /** 0xffffffff. */
  function Ones(): Register
  {
    seq(32, _ => true)
  }

  /** 0x04c11db7. */
  const GENERATOR: Register :=
    [false, false, false, false, false, true, false, false,
     true, true, false, false, false, false, false, true,
     false, false, false, true, true, true, false, true,
     true, false, true, true, false, true, true, true]

  function Xor(a: Register, b: Register): (r: Register)
    ensures forall i :: 0 <= i < 32 ==> r[i] == (a[i] != b[i])
  {
    seq(32, i requires 0 <= i < 32 => a[i] != b[i])
  }

  /** The bits of a byte, most significant first. */
  function Bits(b: byte): (r: seq<bool>)
    ensures |r| == 8
  {
    BitsOf(b, 8)
  }

  function BitsOf(b: nat, n: nat): (r: seq<bool>)
    ensures |r| == n
  {
    if n == 0 then [] else BitsOf(b / 2, n - 1) + [b % 2 == 1]
  }

  function Left(c: Register): Register
  {
    c[1..] + [false]
  }

  /** One step of the register: shift left, add the generator when a one falls out. */
  function Shift(c: Register): Register
  {
    if c[0] then Xor(Left(c), GENERATOR) else Left(c)
  }

  function Shifts(c: Register, n: nat): Register
  {
    if n == 0 then c else Shift(Shifts(c, n - 1))
  }

  /** `(uint32_t)b << 24`. */
  function TopByte(b: byte): Register
  {
    Bits(b) + Zeros(24)
  }

  function FeedByte(c: Register, b: byte): Register
  {
    Shifts(Xor(c, TopByte(b)), 8)
  }

  function CrcFrom(c: Register, s: seq<byte>): Register
  {
    if s == [] then c else FeedByte(CrcFrom(c, s[..|s| - 1]), s[|s| - 1])
  }

  function Crc32(s: seq<byte>): Register
  {
    CrcFrom(Ones(), s)
  }

  /** `psi_mpeg_crc32`, bit by bit over the bytes. */
  method MpegCrc32(data: seq<byte>) returns (crc: Register)
    ensures crc == Crc32(data)
  {
    crc := Ones();
    for i := 0 to |data|
      invariant crc == Crc32(data[..i])
    {
      ghost var before := crc;
      crc := Xor(crc, TopByte(data[i]));
      for b := 0 to 8
        invariant crc == Shifts(Xor(before, TopByte(data[i])), b)
      {
        crc := if crc[0] then Xor(Left(crc), GENERATOR) else Left(crc);
      }
      assert data[..i + 1][..i] == data[..i];
    }
    assert data[..|data|] == data;
  }

  // ---------- The register step is linear and injective ----------

  lemma XorZero(a: Register, b: Register)
    ensures Xor(a, b) == Zero() <==> a == b
    ensures Xor(a, Zero()) == a
  {
    if Xor(a, b) == Zero() {
      forall i | 0 <= i < 32 ensures a[i] == b[i] {
        assert Xor(a, b)[i] == Zero()[i];
      }
    }
  }

  lemma XorSwap(a: Register, b: Register, c: Register)
    ensures Xor(Xor(a, b), c) == Xor(a, Xor(b, c))
    ensures Xor(Xor(a, b), c) == Xor(Xor(a, c), b)
  {
  }

  lemma XorSame(a: Register, b: Register, c: Register)
    ensures Xor(a, c) == Xor(b, c) <==> a == b
    ensures Xor(c, a) == Xor(c, b) <==> a == b
  {
    assert forall i :: 0 <= i < 32 ==> (Xor(a, c)[i] == Xor(b, c)[i] <==> a[i] == b[i]);
    assert forall i :: 0 <= i < 32 ==> (Xor(c, a)[i] == Xor(c, b)[i] <==> a[i] == b[i]);
  }

  lemma ShiftLinear(a: Register, b: Register)
    ensures Shift(Xor(a, b)) == Xor(Shift(a), Shift(b))
  {
  }

  /** The generator is odd, so the bit that falls out can be read back from the last place. */
  lemma ShiftZero(a: Register)
    ensures Shift(a) == Zero() <==> a == Zero()
  {
    if Shift(a) == Zero() {
      assert Shift(a)[31] == Zero()[31];
      forall i | 0 < i < 32 ensures !a[i] {
        assert Shift(a)[i - 1] == Zero()[i - 1];
      }
    }
  }

  lemma {:induction false} ShiftsLinear(a: Register, b: Register, n: nat)
    ensures Shifts(Xor(a, b), n) == Xor(Shifts(a, n), Shifts(b, n))
  {
    hide Xor, Shift;
    if n > 0 {
      ShiftsLinear(a, b, n - 1);
      ShiftLinear(Shifts(a, n - 1), Shifts(b, n - 1));
    }
  }

  lemma {:induction false} ShiftsZero(a: Register, n: nat)
    ensures Shifts(a, n) == Zero() <==> a == Zero()
  {
    if n > 0 {
      ShiftsZero(a, n - 1);
      ShiftZero(Shifts(a, n - 1));
    }
  }

  /** Different registers stay different, however far both are shifted. */
  lemma ShiftsInjective(a: Register, b: Register, n: nat)
    ensures Shifts(a, n) == Shifts(b, n) <==> a == b
  {
    ShiftsLinear(a, b, n);
    ShiftsZero(Xor(a, b), n);
    XorZero(a, b);
    XorZero(Shifts(a, n), Shifts(b, n));
  }

  lemma {:induction false} ShiftsAdd(a: Register, m: nat, n: nat)
    ensures Shifts(a, m + n) == Shifts(Shifts(a, m), n)
  {
    hide Shift;
    if n > 0 {
      ShiftsAdd(a, m, n - 1);
    }
  }

  /** While only zeros fall out, shifting moves the bits and nothing else. */
  lemma {:induction false} ShiftsMove(low: seq<bool>, n: nat)
    requires n + |low| <= 32
    ensures Shifts(Zeros(n) + low + Zeros(32 - n - |low|), n) == low + Zeros(32 - |low|)
    decreases n
  {
    hide Xor;
    if n > 0 {
      var c: Register := Zeros(n) + low + Zeros(32 - n - |low|);
      ShiftsAdd(c, 1, n - 1);
      assert Shifts(c, 1) == Shift(Shifts(c, 0));
      assert Left(c) == Zeros(n - 1) + low + Zeros(32 - (n - 1) - |low|);
      ShiftsMove(low, n - 1);
    } else {
      assert Zeros(0) + low == low;
    }
  }

  // ---------- Bytes in a register ----------

  function Pow2(n: nat): nat
  {
    if n == 0 then 1 else 2 * Pow2(n - 1)
  }

  lemma {:induction false} BitsInjective(a: nat, b: nat, n: nat)
    requires a < Pow2(n) && b < Pow2(n)
    requires BitsOf(a, n) == BitsOf(b, n)
    ensures a == b
  {
    if n > 0 {
      assert BitsOf(a, n)[n - 1] == BitsOf(b, n)[n - 1];
      assert BitsOf(a, n)[..n - 1] == BitsOf(a / 2, n - 1);
      assert BitsOf(b, n)[..n - 1] == BitsOf(b / 2, n - 1);
      BitsInjective(a / 2, b / 2, n - 1);
    }
  }

  /** The bits of a few bytes, as they would be read off the wire. */
  function Word(q: seq<byte>): (r: seq<bool>)
    ensures |r| == 8 * |q|
  {
    if q == [] then [] else Bits(q[0]) + Word(q[1..])
  }

  lemma {:induction false} WordInjective(q: seq<byte>, r: seq<byte>)
    requires |q| == |r| && Word(q) == Word(r)
    ensures q == r
  {
    if q != [] {
      assert Word(q)[..8] == Bits(q[0]) && Word(q)[8..] == Word(q[1..]);
      assert Word(r)[..8] == Bits(r[0]) && Word(r)[8..] == Word(r[1..]);
      Pow2Of8();
      BitsInjective(q[0], r[0], 8);
      WordInjective(q[1..], r[1..]);
    }
  }

  lemma Pow2Of8()
    ensures Pow2(8) == 256
  {
    assert Pow2(4) == 16;
  }

  // ---------- Feeding bytes ----------

  lemma {:induction false} CrcAppend(c: Register, a: seq<byte>, b: seq<byte>)
    ensures CrcFrom(c, a + b) == CrcFrom(CrcFrom(c, a), b)
  {
    if b == [] {
      assert a + b == a;
    } else {
      assert (a + b)[..|a + b| - 1] == a + b[..|b| - 1];
      CrcAppend(c, a, b[..|b| - 1]);
    }
  }

  /** `q` at the top of a register. */
  function Placed(q: seq<byte>): Register
    requires |q| <= 4
  {
    Word(q) + Zeros(32 - 8 * |q|)
  }

  lemma FirstByte(c: Register, q: seq<byte>)
    requires 0 < |q| <= 4
    ensures Shifts(Xor(c, Placed(q)), 8) == Xor(FeedByte(c, q[0]), Placed(q[1..]))
  {
    var tail := Word(q[1..]);
    var low: Register := Zeros(8) + tail + Zeros(32 - 8 - |tail|);
    assert Placed(q) == Xor(TopByte(q[0]), low);
    XorSwap(c, TopByte(q[0]), low);
    ShiftsLinear(Xor(c, TopByte(q[0])), low, 8);
    ShiftsMove(tail, 8);
  }

  lemma FeedFirst(c: Register, q: seq<byte>)
    requires q != []
    ensures CrcFrom(c, q) == CrcFrom(FeedByte(c, q[0]), q[1..])
  {
    assert q == [q[0]] + q[1..];
    CrcAppend(c, [q[0]], q[1..]);
    assert [q[0]][..0] == [];
    assert CrcFrom(c, [q[0]]) == FeedByte(CrcFrom(c, []), q[0]);
  }

  lemma NothingPlaced(c: Register)
    ensures Xor(c, Placed([])) == c
  {
    assert Placed([]) == Zero();
    XorZero(c, c);
  }

  /** Feeding up to four bytes shifts the register plus those bytes. */
  lemma {:induction false} CrcOfWord(c: Register, q: seq<byte>)
    requires |q| <= 4
    ensures CrcFrom(c, q) == Shifts(Xor(c, Placed(q)), 8 * |q|)
    decreases |q|
  {
    hide Xor, FeedByte, Shift, Word;
    if q == [] {
      NothingPlaced(c);
    } else {
      hide Placed, Shifts;
      var n := 8 * |q[1..]|;
      calc {
        CrcFrom(c, q);
      == { FeedFirst(c, q); }
        CrcFrom(FeedByte(c, q[0]), q[1..]);
      == { CrcOfWord(FeedByte(c, q[0]), q[1..]); }
        Shifts(Xor(FeedByte(c, q[0]), Placed(q[1..])), n);
      == { FirstByte(c, q); }
        Shifts(Shifts(Xor(c, Placed(q)), 8), n);
      == { ShiftsAdd(Xor(c, Placed(q)), 8, n); }
        Shifts(Xor(c, Placed(q)), 8 + n);
      }
    }
  }

  /** Bytes fed into two different registers keep them different. */
  lemma {:induction false} CrcKeepsDifference(c: Register, d: Register, s: seq<byte>)
    ensures CrcFrom(c, s) == CrcFrom(d, s) <==> c == d
  {
    if s != [] {
      var c', d' := CrcFrom(c, s[..|s| - 1]), CrcFrom(d, s[..|s| - 1]);
      CrcKeepsDifference(c, d, s[..|s| - 1]);
      var top := TopByte(s[|s| - 1]);
      XorSame(c', d', top);
      ShiftsInjective(Xor(c', top), Xor(d', top), 8);
    }
  }

  /** A section checks to zero exactly when it ends in the big-endian CRC of everything before. */
  lemma SectionCheck(s: seq<byte>)
    requires |s| >= 4
    ensures Crc32(s) == Zero() <==> Word(s[|s| - 4..]) == Crc32(s[..|s| - 4])
  {
    var body, tail := s[..|s| - 4], s[|s| - 4..];
    assert s == body + tail;
    CrcAppend(Ones(), body, tail);
    CrcOfWord(Crc32(body), tail);
    assert Placed(tail) == Word(tail);
    ShiftsZero(Xor(Crc32(body), Word(tail)), 32);
    XorZero(Crc32(body), Word(tail));
  }

  // ---------- Sealing a section ----------

  /** The number that bits spell, most significant first. */
  function Value(bits: seq<bool>): (n: nat)
    ensures n < Pow2(|bits|)
  {
    if bits == [] then 0 else 2 * Value(bits[..|bits| - 1]) + if bits[|bits| - 1] then 1 else 0
  }

  lemma {:induction false} BitsOfValue(bits: seq<bool>)
    ensures BitsOf(Value(bits), |bits|) == bits
  {
    if bits != [] {
      var front, last := bits[..|bits| - 1], bits[|bits| - 1];
      BitsOfValue(front);
      LastBit(Value(front), last, |front|);
      hide BitsOf;
      assert bits == front + [last];
    }
  }

  lemma LastBit(v: nat, last: bool, n: nat)
    ensures BitsOf(2 * v + if last then 1 else 0, n + 1) == BitsOf(v, n) + [last]
  {
    var w := 2 * v + if last then 1 else 0;
    assert w / 2 == v && (w % 2 == 1 <==> last);
  }

  /** Bits packed into bytes: the inverse of `Word`. */
  function BytesOf(bits: seq<bool>): (r: seq<byte>)
    requires |bits| % 8 == 0
    ensures 8 * |r| == |bits|
  {
    if bits == [] then [] else
    Pow2Of8();
    [Value(bits[..8])] + BytesOf(bits[8..])
  }

  lemma {:induction false} WordOfBytes(bits: seq<bool>)
    requires |bits| % 8 == 0
    ensures Word(BytesOf(bits)) == bits
  {
    if bits != [] {
      Pow2Of8();
      var q := BytesOf(bits);
      WordOfBytes(bits[8..]);
      BitsOfValue(bits[..8]);
      assert q[1..] == BytesOf(bits[8..]);
      assert bits == bits[..8] + bits[8..];
    }
  }

  /** A section with its checksum behind it. */
  function Seal(body: seq<byte>): (s: seq<byte>)
    ensures |s| == |body| + 4 && s[..|body|] == body
  {
    body + BytesOf(Crc32(body))
  }

  /** A sealed section checks, and no other four bytes behind the same body do. */
  lemma SealChecks(body: seq<byte>, tail: seq<byte>)
    requires |tail| == 4
    ensures Crc32(body + tail) == Zero() <==> body + tail == Seal(body)
  {
    var s, seal := body + tail, BytesOf(Crc32(body));
    assert s[..|s| - 4] == body && s[|s| - 4..] == tail;
    SectionCheck(s);
    WordOfBytes(Crc32(body));
    if Word(tail) == Crc32(body) {
      WordInjective(tail, seal);
    }
    if s == Seal(body) {
      assert tail == Seal(body)[|body|..] == seal;
    }
  }

  lemma SealedChecks(body: seq<byte>)
    ensures Crc32(Seal(body)) == Zero()
  {
    SealChecks(body, BytesOf(Crc32(body)));
  }

  /** Of all changes confined to at most four consecutive bytes of a section that checks, none goes unseen. */
  lemma BurstDetected(front: seq<byte>, q: seq<byte>, r: seq<byte>, back: seq<byte>)
    requires |q| == |r| <= 4
    requires Crc32(front + q + back) == Zero()
    ensures Crc32(front + r + back) == Zero() <==> q == r
  {
    var c := Crc32(front);
    CrcAppend(Ones(), front, q);
    CrcAppend(Ones(), front, r);
    CrcAppend(Ones(), front + q, back);
    CrcAppend(Ones(), front + r, back);
    CrcKeepsDifference(CrcFrom(c, q), CrcFrom(c, r), back);
    CrcOfWord(c, q);
    CrcOfWord(c, r);
    ShiftsInjective(Xor(c, Placed(q)), Xor(c, Placed(r)), 8 * |q|);
    XorSame(Placed(q), Placed(r), c);
    if Placed(q) == Placed(r) {
      assert Word(q) == Placed(q)[..8 * |q|] && Word(r) == Placed(r)[..8 * |r|];
      WordInjective(q, r);
    }
  }

  // ---------- Which checksum it is ----------

  /** Feeding a single one bit to a register of zeros leaves the generator polynomial of ISO/IEC 13818-1:
      x^32 + x^26 + x^23 + x^22 + x^16 + x^12 + x^11 + x^10 + x^8 + x^7 + x^5 + x^4 + x^2 + x + 1. */
  lemma GeneratorShows(i: nat)
    requires i < 32
    ensures CrcFrom(Zero(), [1])[31 - i] <==> i in {26, 23, 22, 16, 12, 11, 10, 8, 7, 5, 4, 2, 1, 0}
  {
    hide FeedByte;
    OneByte();
    OneBit();
    GeneratorAt(i);
  }

  lemma OneByte()
    ensures CrcFrom(Zero(), [1]) == FeedByte(Zero(), 1)
  {
    hide FeedByte;
    assert [1 as byte][..0] == [];
  }

  lemma GeneratorAt(i: nat)
    requires i < 32
    ensures GENERATOR[31 - i] <==> i in {26, 23, 22, 16, 12, 11, 10, 8, 7, 5, 4, 2, 1, 0}
  {
    if i < 8 {
    } else if i < 16 {
    } else if i < 24 {
    }
  }

  /** The checksum of nothing is all ones. */
  lemma StartsAllOnes(i: nat)
    requires i < 32
    ensures Crc32([])[i]
  {
  }

  lemma OneBit()
    ensures FeedByte(Zero(), 1) == GENERATOR
  {
    assert Bits(1) == [false, false, false, false, false, false, false, true];
    var c: Register := Xor(Zero(), TopByte(1));
    var start: Register := seq(32, i => i == 7);
    assert c == start;
    SevenShifts();
    assert Shifts(start, 8) == Shift(Shifts(start, 7));
  }

  lemma SevenShifts()
    ensures var start: Register := seq(32, i => i == 7); Shift(Shifts(start, 7)) == GENERATOR
  {
    var start: Register := seq(32, i => i == 7);
    ShiftsDown(start, 7);
    var top: Register := seq(32, i => i == 0);
    assert Shifts(start, 7) == top;
    assert Left(top) == Zero();
    assert Shift(top) == GENERATOR;
  }

  lemma {:induction false} ShiftsDown(start: Register, n: nat)
    requires n <= 7 && start == seq(32, i => i == 7)
    ensures Shifts(start, n) == seq(32, i => i == 7 - n)
  {
    if n > 0 {
      ShiftsDown(start, n - 1);
    }
  }
}
