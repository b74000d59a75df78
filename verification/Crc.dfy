/**
 The Modbus CRC-16 of the client: a byte-wise shift register with the reflected constant
 0xA001, started from 0xFFFF.

 Section 6.2.2 of the MODBUS over Serial Line Specification and Implementation Guide V1.02
 describes the same register. What it means is said here in terms of polynomials over GF(2):
 a message is read as bits, the least significant bit of each byte first, and bit i of the
 register stands for x^(15 - i).
 */
module Crc {
  import opened Gf2

  type Bytes = seq<bv8>

  /** x^16 + x^15 + x^2 + 1, highest power first. */
  const G: Poly := [true, true, false, false, false, false, false, false, false,
                    false, false, false, false, false, true, false, true]

  const INITIAL: bv16 := 0xFFFF
  const REFLECTED: bv16 := 0xA001

  /** The single-bit masks, least significant first. */
  const MASKS: seq<bv16> := [0x0001, 0x0002, 0x0004, 0x0008, 0x0010, 0x0020, 0x0040, 0x0080,
                             0x0100, 0x0200, 0x0400, 0x0800, 0x1000, 0x2000, 0x4000, 0x8000]

  predicate Bit(x: bv16, mask: bv16) {
    x & mask != 0
  }

  /** The low `n` bits, least significant first. */
  function LowBits(x: bv16, n: nat): (p: Poly)
    requires n <= 16
    ensures |p| == n
  {
    seq(n, i requires 0 <= i < n => Bit(x, MASKS[i]))
  }

  function ByteBits(b: bv8): (p: Poly)
    ensures |p| == 8
  {
    LowBits(b as bv16, 8)
  }

  /** The message as serial bits. */
  function Bits(data: Bytes): (p: Poly)
    ensures |p| == 8 * |data|
  {
    if data == [] then [] else ByteBits(data[0]) + Bits(data[1..])
  }

  /** The register as a polynomial of degree below 16. */
  function Register(crc: bv16): (p: Poly)
    ensures |p| == 16
  {
    LowBits(crc, 16)
  }

  /** One shift of the register. */
  function Shift(crc: bv16): bv16 {
    if crc & 0x0001 != 0 then (crc >> 1) ^ REFLECTED else crc >> 1
  }

  function Shifts(crc: bv16, n: nat): bv16
    decreases n, crc
  {
    if n == 0 then crc else Shifts(Shift(crc), n - 1)
  }

  /** The register after `data`, started from `crc`. */
  function Run(crc: bv16, data: Bytes): bv16
    decreases |data|
  {
    if data == [] then crc else Run(Shifts(crc ^ (data[0] as bv16), 8), data[1..])
  }

  function Crc16(data: Bytes): bv16 {
    Run(INITIAL, data)
  }

  /** x^15 + x^14 + ... + 1. */
  const ONES: Poly := [true, true, true, true, true, true, true, true,
                       true, true, true, true, true, true, true, true]

  /** What the checksum divides: M * x^16 + (x^15 + ... + 1) * x^N, for a message M of N bits. */
  ghost function Preset(data: Bytes): Poly {
    Dividend(ONES, Bits(data))
  }

  /** The inner loop, one byte already added to the register. */
  method ShiftByte(loaded: bv16) returns (crc: bv16)
    ensures crc == Shifts(loaded, 8)
  {
    crc := loaded;
    for j := 0 to 8
      invariant Shifts(crc, 8 - j) == Shifts(loaded, 8)
    {
      if crc & 0x0001 != 0 {
        crc := crc >> 1;
        crc := crc ^ 0xA001;
      } else {
        crc := crc >> 1;
      }
    }
  }

  method ModbusCrc16(data: Bytes) returns (crc: bv16)
    ensures crc == Crc16(data)
    ensures IsRemainder(Preset(data), G, Register(crc))
  {
    crc := 0xFFFF;
    for i := 0 to |data|
      invariant Run(crc, data[i..]) == Crc16(data)
    {
      assert data[i..][1..] == data[i + 1..];
      crc := crc ^ (data[i] as bv16);
      crc := ShiftByte(crc);
    }
    CrcIsRemainder(data);
  }

  // ----- the register and its polynomial

  predicate SingleBit(m: bv16) {
    m != 0 && m & (m - 1) == 0
  }

  lemma {:induction false} MasksAreBits(i: nat)
    requires i < 16
    ensures SingleBit(MASKS[i])
    ensures i < 15 ==> MASKS[i] != 0x8000 && MASKS[i + 1] == MASKS[i] << 1
  {
  }

  lemma {:induction false} BitXor(a: bv16, b: bv16, m: bv16)
    requires SingleBit(m)
    ensures Bit(a ^ b, m) == (Bit(a, m) != Bit(b, m))
  {
  }

  lemma {:induction false} BitHalf(x: bv16, m: bv16)
    requires SingleBit(m)
    ensures Bit(x >> 1, m) == (m != 0x8000 && Bit(x, m << 1))
  {
  }

  lemma {:induction false} NoBits(x: bv16)
    requires !Bit(x, 0x0001) && !Bit(x, 0x0002) && !Bit(x, 0x0004) && !Bit(x, 0x0008)
    requires !Bit(x, 0x0010) && !Bit(x, 0x0020) && !Bit(x, 0x0040) && !Bit(x, 0x0080)
    requires !Bit(x, 0x0100) && !Bit(x, 0x0200) && !Bit(x, 0x0400) && !Bit(x, 0x0800)
    requires !Bit(x, 0x1000) && !Bit(x, 0x2000) && !Bit(x, 0x4000) && !Bit(x, 0x8000)
    ensures x == 0
  {
  }

  lemma {:induction false} LowBitsXor(a: bv16, b: bv16, n: nat)
    requires n <= 16
    ensures LowBits(a ^ b, n) == Xor(LowBits(a, n), LowBits(b, n))
  {
    forall i | 0 <= i < n
      ensures LowBits(a ^ b, n)[i] == Xor(LowBits(a, n), LowBits(b, n))[i]
    {
      MasksAreBits(i);
      BitXor(a, b, MASKS[i]);
    }
  }

  lemma {:induction false} RegisterXor(a: bv16, b: bv16)
    ensures Register(a ^ b) == Xor(Register(a), Register(b))
  {
    LowBitsXor(a, b, 16);
  }

  lemma {:induction false} RegisterZero(x: bv16)
    ensures Register(x) == Zeros(16) <==> x == 0
  {
    var p := Register(x);
    if x == 0 {
      assert p == Zeros(16);
    }
    if p == Zeros(16) {
      assert !p[0] && !p[1] && !p[2] && !p[3] && !p[4] && !p[5] && !p[6] && !p[7];
      assert !p[8] && !p[9] && !p[10] && !p[11] && !p[12] && !p[13] && !p[14] && !p[15];
      NoBits(x);
    }
  }

  lemma {:induction false} RegisterInjective(a: bv16, b: bv16)
    requires Register(a) == Register(b)
    ensures a == b
  {
    RegisterXor(a, b);
    assert Register(a ^ b) == Zeros(16);
    RegisterZero(a ^ b);
    XorZero(a, b);
  }

  lemma {:induction false} XorZero(a: bv16, b: bv16)
    ensures a ^ b == 0 <==> a == b
  {
  }

  lemma {:induction false} HighBitsOfByte(b: bv8, m: bv16)
    requires SingleBit(m) && m >= 0x0100
    ensures !Bit(b as bv16, m)
  {
  }

  lemma {:induction false} RegisterByte(b: bv8)
    ensures Register(b as bv16) == ByteBits(b) + Zeros(8)
  {
    var p := Register(b as bv16);
    forall i | 8 <= i < 16
      ensures !p[i]
    {
      MasksAreBits(i);
      HighBitsOfByte(b, MASKS[i]);
    }
  }

  lemma {:induction false} RegisterHalf(x: bv16)
    ensures Register(x >> 1) == Register(x)[1..] + [false]
  {
    forall i | 0 <= i < 16
      ensures Register(x >> 1)[i] == (Register(x)[1..] + [false])[i]
    {
      MasksAreBits(i);
      BitHalf(x, MASKS[i]);
    }
  }

  lemma {:induction false} RegisterOfFeedback()
    ensures Register(REFLECTED) == G[1..]
  {
    var p, q := Register(REFLECTED), G[1..];
    assert p[0] == q[0] && p[1] == q[1] && p[2] == q[2] && p[3] == q[3];
    assert p[4] == q[4] && p[5] == q[5] && p[6] == q[6] && p[7] == q[7];
    assert p[8] == q[8] && p[9] == q[9] && p[10] == q[10] && p[11] == q[11];
    assert p[12] == q[12] && p[13] == q[13] && p[14] == q[14] && p[15] == q[15];
    assert p == q;
  }

  lemma {:induction false} RegisterShift(crc: bv16)
    ensures Register(Shift(crc)) == Clock(Register(crc), false, G)
  {
    RegisterHalf(crc);
    RegisterOfFeedback();
    RegisterXor(crc >> 1, REFLECTED);
    var half := Register(crc >> 1);
    assert Xor(half, Zeros(16)) == half;
  }

  lemma {:induction false} RegisterShifts(crc: bv16, n: nat)
    ensures Register(Shifts(crc, n)) == Divide(Register(crc), Zeros(n), G)
    decreases n
  {
    if n > 0 {
      RegisterShift(crc);
      assert Zeros(n)[1..] == Zeros(n - 1);
      RegisterShifts(Shift(crc), n - 1);
    }
  }

  lemma {:induction false} RegisterLoad(crc: bv16, b: bv8)
    ensures Register(crc ^ (b as bv16)) == Xor(Register(crc), ByteBits(b) + Zeros(8))
  {
    RegisterXor(crc, b as bv16);
    RegisterByte(b);
  }

  /** Adding a byte and shifting eight times clocks in its eight bits one by one. */
  lemma {:induction false} RegisterByteStep(crc: bv16, b: bv8)
    ensures Register(Shifts(crc ^ (b as bv16), 8)) == Divide(Register(crc), ByteBits(b), G)
  {
    RegisterLoad(crc, b);
    RegisterShifts(crc ^ (b as bv16), 8);
    PreloadBits(Register(crc), ByteBits(b), G);
  }

  /** The byte-wise nested loop is the bit-serial division. */
  lemma {:induction false} RunIsDivide(crc: bv16, data: Bytes)
    ensures Register(Run(crc, data)) == Divide(Register(crc), Bits(data), G)
    decreases |data|
  {
    if data != [] {
      RegisterByteStep(crc, data[0]);
      RunIsDivide(Shifts(crc ^ (data[0] as bv16), 8), data[1..]);
      DivideConcat(Register(crc), ByteBits(data[0]), Bits(data[1..]), G);
    }
  }

  lemma {:induction false} AllOnes()
    ensures Register(INITIAL) == ONES
  {
  }

  /** Main result: the checksum is the remainder of the preset message divided by G. */
  lemma {:induction false} CrcIsRemainder(data: Bytes)
    ensures IsRemainder(Preset(data), G, Register(Crc16(data)))
  {
    RunIsDivide(INITIAL, data);
    AllOnes();
    var q := DivideIsDivision(ONES, Bits(data), G);
  }

  /** It is the only 16-bit value that is that remainder. */
  lemma {:induction false} CrcIsTheRemainder(data: Bytes, crc: bv16)
    ensures IsRemainder(Preset(data), G, Register(crc)) <==> crc == Crc16(data)
  {
    CrcIsRemainder(data);
    if IsRemainder(Preset(data), G, Register(crc)) {
      RemainderUnique(Preset(data), G, Register(crc), Register(Crc16(data)));
      RegisterInjective(crc, Crc16(data));
    }
  }

  // ----- algebra

  function XorBytes(a: Bytes, b: Bytes): (c: Bytes)
    requires |a| == |b|
    ensures |c| == |a|
  {
    if a == [] then [] else [a[0] ^ b[0]] + XorBytes(a[1..], b[1..])
  }

  lemma {:induction false} WidenXor(a: bv8, b: bv8)
    ensures (a ^ b) as bv16 == (a as bv16) ^ (b as bv16)
  {
  }

  lemma {:induction false} ByteBitsXor(a: bv8, b: bv8)
    ensures ByteBits(a ^ b) == Xor(ByteBits(a), ByteBits(b))
  {
    WidenXor(a, b);
    LowBitsXor(a as bv16, b as bv16, 8);
  }

  lemma {:induction false} XorOfConcat(a: Poly, b: Poly, c: Poly, d: Poly)
    requires |a| == |b| && |c| == |d|
    ensures Xor(a, b) + Xor(c, d) == Xor(a + c, b + d)
  {
  }

  lemma {:induction false} BitsXor(a: Bytes, b: Bytes)
    requires |a| == |b|
    ensures Bits(XorBytes(a, b)) == Xor(Bits(a), Bits(b))
  {
    if a != [] {
      BitsXor(a[1..], b[1..]);
      ByteBitsXor(a[0], b[0]);
      assert XorBytes(a, b)[1..] == XorBytes(a[1..], b[1..]);
      XorOfConcat(ByteBits(a[0]), ByteBits(b[0]), Bits(a[1..]), Bits(b[1..]));
    }
  }

  /** The two registers differ by what the difference of the messages leaves in an empty register. */
  lemma {:induction false} DifferenceOfCrcs(a: Bytes, b: Bytes)
    requires |a| == |b|
    ensures Xor(Register(Crc16(a)), Register(Crc16(b))) == Divide(Zeros(16), Xor(Bits(a), Bits(b)), G)
  {
    RunIsDivide(INITIAL, a);
    RunIsDivide(INITIAL, b);
    var r := Register(INITIAL);
    assert Xor(r, r) == Zeros(16);
    DivideLinear(r, Bits(a), r, Bits(b), G);
  }

  lemma {:induction false} SameRegister(x: bv16, y: bv16)
    ensures x == y <==> Xor(Register(x), Register(y)) == Zeros(16)
  {
    RegisterXor(x, y);
    RegisterZero(x ^ y);
    XorZero(x, y);
  }

  lemma {:induction false} SameCrcIffDivisible(a: Bytes, b: Bytes)
    requires |a| == |b|
    ensures Crc16(a) == Crc16(b) <==> Divide(Zeros(16), Xor(Bits(a), Bits(b)), G) == Zeros(16)
  {
    DifferenceOfCrcs(a, b);
    SameRegister(Crc16(a), Crc16(b));
  }

  lemma {:induction false} RegisterXor3(x: bv16, y: bv16, z: bv16, w: bv16)
    requires Register(w) == Xor(Xor(Register(x), Register(y)), Register(z))
    ensures w == x ^ y ^ z
  {
    RegisterXor(x, y);
    RegisterXor(x ^ y, z);
    RegisterInjective(w, x ^ y ^ z);
  }

  lemma {:induction false} DivideAffine(r: Poly, a: Poly, b: Poly, c: Poly)
    requires |r| == 16 && |a| == |b| == |c|
    ensures Divide(r, Xor(Xor(a, b), c), G) == Xor(Xor(Divide(r, a, G), Divide(r, b, G)), Divide(r, c, G))
  {
    DivideLinear(r, a, r, b, G);
    DivideLinear(Xor(r, r), Xor(a, b), r, c, G);
    assert Xor(Xor(r, r), r) == r;
  }

  /** The checksum is affine. */
  lemma {:induction false} CrcAffine(a: Bytes, b: Bytes, c: Bytes)
    requires |a| == |b| == |c|
    ensures Crc16(XorBytes(XorBytes(a, b), c)) == Crc16(a) ^ Crc16(b) ^ Crc16(c)
  {
    var d := XorBytes(XorBytes(a, b), c);
    BitsXor(XorBytes(a, b), c);
    BitsXor(a, b);
    RunIsDivide(INITIAL, a);
    RunIsDivide(INITIAL, b);
    RunIsDivide(INITIAL, c);
    RunIsDivide(INITIAL, d);
    DivideAffine(Register(INITIAL), Bits(a), Bits(b), Bits(c));
    RegisterXor3(Crc16(a), Crc16(b), Crc16(c), Crc16(d));
  }

  function LowByte(crc: bv16): bv8 { (crc & 0xFF) as bv8 }

  function HighByte(crc: bv16): bv8 { (crc >> 8) as bv8 }

  lemma {:induction false} BitsConcat(a: Bytes, b: Bytes)
    ensures Bits(a + b) == Bits(a) + Bits(b)
  {
    if a == [] {
      assert a + b == b;
    } else {
      assert (a + b)[1..] == a[1..] + b;
      BitsConcat(a[1..], b);
    }
  }

  function Pack(lo: bv8, hi: bv8): bv16 { (lo as bv16) | ((hi as bv16) << 8) }

  lemma {:induction false} UnpackPack(lo: bv8, hi: bv8)
    ensures LowByte(Pack(lo, hi)) == lo && HighByte(Pack(lo, hi)) == hi
  {
  }

  lemma {:induction false} PackUnpack(crc: bv16)
    ensures Pack(LowByte(crc), HighByte(crc)) == crc
  {
  }

  lemma {:induction false} BitOfPack(lo: bv8, hi: bv8, m: bv16)
    requires SingleBit(m)
    ensures m < 0x0100 ==> Bit(Pack(lo, hi), m) == Bit(lo as bv16, m)
    ensures m < 0x0100 ==> Bit(Pack(lo, hi), m << 8) == Bit(hi as bv16, m)
  {
  }

  lemma {:induction false} PackBits(lo: bv8, hi: bv8)
    ensures Register(Pack(lo, hi)) == ByteBits(lo) + ByteBits(hi)
  {
    forall i | 0 <= i < 8
      ensures Register(Pack(lo, hi))[i] == ByteBits(lo)[i]
      ensures Register(Pack(lo, hi))[i + 8] == ByteBits(hi)[i]
    {
      MasksAreBits(i);
      assert MASKS[i] < 0x0100 && MASKS[i + 8] == MASKS[i] << 8;
      BitOfPack(lo, hi, MASKS[i]);
    }
    forall i | 8 <= i < 16
      ensures Register(Pack(lo, hi))[i] == ByteBits(hi)[i - 8]
    {
      assert Register(Pack(lo, hi))[(i - 8) + 8] == ByteBits(hi)[i - 8];
    }
  }

  /** The receiver's test: a frame whose last two bytes are lo, hi leaves zero exactly when they are the CRC. */
  lemma {:induction false} ResidueIffCrcAppended(data: Bytes, lo: bv8, hi: bv8)
    ensures Crc16(data + [lo, hi]) == 0 <==> lo == LowByte(Crc16(data)) && hi == HighByte(Crc16(data))
  {
    var crc := Crc16(data);
    var sent := Pack(lo, hi);
    BitsConcat(data, [lo, hi]);
    assert [lo, hi][1..] == [hi];
    assert Bits([hi]) == ByteBits(hi);
    assert Bits([lo, hi]) == ByteBits(lo) + ByteBits(hi);
    PackBits(lo, hi);
    RunIsDivide(INITIAL, data);
    RunIsDivide(INITIAL, data + [lo, hi]);
    DivideConcat(Register(INITIAL), Bits(data), Register(sent), G);
    BlockClears(Register(crc), Register(sent), G);
    RegisterZero(Crc16(data + [lo, hi]));
    if Register(sent) == Register(crc) {
      RegisterInjective(sent, crc);
    }
    UnpackPack(lo, hi);
    PackUnpack(crc);
  }

  // ----- error detection

  /** All bits in which the messages differ lie in serial positions first .. first + 16. */
  ghost predicate DifferWithin(a: Bytes, b: Bytes, first: nat)
    requires |a| == |b|
  {
    forall i :: 0 <= i < |Bits(a)| && Bits(a)[i] != Bits(b)[i] ==> first <= i < first + 16
  }

  /** Every error burst of at most 16 bits is detected. */
  lemma {:induction false} BurstDetected(a: Bytes, b: Bytes, first: nat)
    requires |a| == |b| && a != b && DifferWithin(a, b, first)
    ensures Crc16(a) != Crc16(b)
  {
    var d := Xor(Bits(a), Bits(b));
    var at := DifferingBit(a, b);
    assert d[at];
    BurstInWindow(d, first, at, G);
    SameCrcIffDivisible(a, b);
  }

  lemma {:induction false} DifferingBit(a: Bytes, b: Bytes) returns (i: nat)
    requires |a| == |b| && a != b
    ensures i < |Bits(a)| && Bits(a)[i] != Bits(b)[i]
  {
    if a[0] != b[0] {
      i := DifferingBitOfByte(a[0], b[0]);
    } else {
      assert a == [a[0]] + a[1..] && b == [b[0]] + b[1..];
      i := DifferingBit(a[1..], b[1..]);
      i := i + 8;
    }
  }

  lemma {:induction false} DifferingBitOfByte(a: bv8, b: bv8) returns (i: nat)
    requires a != b
    ensures i < 8 && ByteBits(a)[i] != ByteBits(b)[i]
  {
    var p, q := ByteBits(a), ByteBits(b);
    i := if p[0] != q[0] then 0 else if p[1] != q[1] then 1 else if p[2] != q[2] then 2
         else if p[3] != q[3] then 3 else if p[4] != q[4] then 4 else if p[5] != q[5] then 5
         else if p[6] != q[6] then 6 else 7;
  }

  lemma {:induction false} GeneratorEven()
    ensures !Odd(G)
  {
    assert G == [true, true] + (Zeros(12) + [true, false, true]);
    OddConcat([true, true], Zeros(12) + [true, false, true]);
    OddConcat(Zeros(12), [true, false, true]);
    ZerosNotOdd(12);
    assert !Odd([true, true]);
    assert [true, false, true][1..] == [false, true];
    assert !Odd([true, false, true]);
  }

  lemma {:induction false} InitialEven()
    ensures !Odd(Register(INITIAL))
  {
    var half := [true, true, true, true, true, true, true, true];
    assert Register(INITIAL) == half + half;
    OddConcat(half, half);
  }

  /** The parity of the checksum is the parity of the message. */
  lemma {:induction false} CrcKeepsParity(data: Bytes)
    ensures Odd(Register(Crc16(data))) == Odd(Bits(data))
  {
    RunIsDivide(INITIAL, data);
    GeneratorEven();
    InitialEven();
    DivideKeepsParity(Register(INITIAL), Bits(data), G);
  }

  /** An odd number of wrong bits is always detected. */
  lemma {:induction false} OddErrorDetected(a: Bytes, b: Bytes)
    requires |a| == |b| && Odd(Xor(Bits(a), Bits(b)))
    ensures Crc16(a) != Crc16(b)
  {
    CrcKeepsParity(a);
    CrcKeepsParity(b);
    OddXor(Bits(a), Bits(b));
  }
}
