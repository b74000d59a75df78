/**
 How far apart two wrong bits may lie before the checksum misses them: the period of the shift register.

 The register stands for a polynomial modulo G = (x + 1)(x^15 + x + 1), and a shift multiplies by x. On the multiples
 of x + 1, fifteen shifts act as x + 1; squaring that relation reaches any power of two in a few steps.
 */
module CrcPeriod {
  import opened Gf2
  import opened Crc

  /** A register as a polynomial. */
  type Reg = p: Poly | |p| == 16 witness Zeros(16)

  /** The register after n shifts. */
  function Shifted(r: Reg, n: nat): Reg {
    Divide(r, Zeros(n), G)
  }

  lemma {:induction false} ShiftedTwice(r: Reg, m: nat, n: nat)
    ensures Shifted(Shifted(r, m), n) == Shifted(r, m + n)
  {
    assert Zeros(m + n) == Zeros(m) + Zeros(n);
    DivideConcat(r, Zeros(m), Zeros(n), G);
  }

  lemma {:induction false} ShiftedXor(a: Reg, b: Reg, n: nat)
    ensures Shifted(Xor(a, b), n) == Xor(Shifted(a, n), Shifted(b, n))
  {
    assert Xor(Zeros(n), Zeros(n)) == Zeros(n);
    DivideLinear(a, Zeros(n), b, Zeros(n), G);
  }

  lemma {:induction false} Cancel(a: Reg, b: Reg, c: Reg)
    ensures Xor(Xor(a, b), Xor(b, c)) == Xor(a, c)
  {
  }

  // ----- where x^15 is x + 1

  ghost predicate Reduced(y: Reg) {
    Shifted(y, 15) == Xor(Shifted(y, 1), y)
  }

  lemma {:induction false} ReducedShifted(y: Reg, n: nat)
    requires Reduced(y)
    ensures Reduced(Shifted(y, n))
  {
    ShiftedTwice(y, n, 15);
    ShiftedTwice(y, 15, n);
    ShiftedTwice(y, n, 1);
    ShiftedTwice(y, 1, n);
    ShiftedXor(Shifted(y, 1), y, n);
  }

  ghost predicate Sixteen(y: Reg, n: nat) {
    Shifted(y, 16 * n) == Xor(Shifted(y, 2 * n), Shifted(y, n))
  }

  lemma {:induction false} SixteenOnce(y: Reg)
    requires Reduced(y)
    ensures Sixteen(y, 1)
  {
    ShiftedTwice(y, 15, 1);
    ShiftedXor(Shifted(y, 1), y, 1);
    ShiftedTwice(y, 1, 1);
  }

  lemma {:induction false} SixteenTwice(y: Reg, n: nat, z: Reg)
    requires z == Shifted(y, 16 * n) && Sixteen(y, n) && Sixteen(z, n)
    ensures Sixteen(y, 2 * n)
  {
    ShiftedTwice(y, 16 * n, 16 * n);
    ShiftedXor(Shifted(y, 2 * n), Shifted(y, n), 2 * n);
    ShiftedXor(Shifted(y, 2 * n), Shifted(y, n), n);
    ShiftedTwice(y, 2 * n, 2 * n);
    ShiftedTwice(y, n, 2 * n);
    ShiftedTwice(y, 2 * n, n);
    ShiftedTwice(y, n, n);
    Cancel(Shifted(y, 4 * n), Shifted(y, 3 * n), Shifted(y, 2 * n));
  }

  function Two(j: nat): nat {
    if j == 0 then 1 else 2 * Two(j - 1)
  }

  /** Any power of two times sixteen shifts, on two terms. */
  lemma {:induction false} SixteenTimes(y: Reg, j: nat)
    requires Reduced(y)
    ensures Sixteen(y, Two(j))
    decreases j
  {
    if j == 0 {
      SixteenOnce(y);
    } else {
      var n := Two(j - 1);
      ReducedShifted(y, 16 * n);
      SixteenTimes(y, j - 1);
      SixteenTimes(Shifted(y, 16 * n), j - 1);
      SixteenTwice(y, n, Shifted(y, 16 * n));
    }
  }

  lemma {:induction false} PowersOfTwo(y: Reg)
    requires Reduced(y)
    ensures Sixteen(y, 1) && Sixteen(y, 2) && Sixteen(y, 4) && Sixteen(y, 8) && Sixteen(y, 16) && Sixteen(y, 32)
    ensures Sixteen(y, 64) && Sixteen(y, 128) && Sixteen(y, 256) && Sixteen(y, 2048)
  {
    SixteenTimes(y, 0);
    SixteenTimes(y, 1);
    SixteenTimes(y, 2);
    SixteenTimes(y, 3);
    SixteenTimes(y, 4);
    SixteenTimes(y, 5);
    SixteenTimes(y, 6);
    SixteenTimes(y, 7);
    SixteenTimes(y, 8);
    SixteenTimes(y, 11);
  }

  lemma {:induction false} CancelTwice(a: Reg, b: Reg, c: Reg)
    ensures Xor(Xor(a, b), Xor(Xor(b, c), a)) == c
  {
  }

  /** x^32768 acts as x. */
  lemma {:induction false} Frobenius(y: Reg)
    requires Reduced(y)
    ensures Shifted(y, 32768) == Shifted(y, 1)
  {
    PowersOfTwo(y);
    Cancel(Shifted(y, 512), Shifted(y, 256), Shifted(y, 128));
    Cancel(Shifted(y, 8), Shifted(y, 4), Shifted(y, 2));
    CancelTwice(Shifted(y, 8), Shifted(y, 2), Shifted(y, 1));
  }

  // ----- computing

  /** n shifts lead from one register to the other. */
  ghost predicate Reaches(v: bv16, n: nat, w: bv16) {
    Shifted(Register(v), n) == Register(w)
  }

  lemma {:induction false} ReachesThen(u: bv16, m: nat, v: bv16, n: nat, w: bv16)
    requires Reaches(u, m, v) && Reaches(v, n, w)
    ensures Reaches(u, m + n, w)
  {
    ShiftedTwice(Register(u), m, n);
  }

  lemma {:induction false} ReachesSum(u: bv16, n: nat, v: bv16, w: bv16)
    requires Sixteen(Register(u), n) && Reaches(u, 2 * n, v) && Reaches(u, n, w)
    ensures Reaches(u, 16 * n, v ^ w)
  {
    RegisterXor(v, w);
  }

  /** Eight shifts are enough to know thousands. */
  lemma {:induction false} Near(u: bv16, s1: bv16, s2: bv16, s4: bv16, s8: bv16, s16: bv16, s32: bv16, s64: bv16,
                                s128: bv16)
    requires Reduced(Register(u))
    requires Reaches(u, 1, s1) && Reaches(u, 2, s2) && Reaches(u, 4, s4) && Reaches(u, 8, s8)
    requires s16 == s2 ^ s1 && s32 == s4 ^ s2 && s64 == s8 ^ s4 && s128 == s16 ^ s8
    ensures Reaches(u, 16, s16) && Reaches(u, 32, s32) && Reaches(u, 64, s64) && Reaches(u, 128, s128)
  {
    PowersOfTwo(Register(u));
    ReachesSum(u, 1, s2, s1);
    ReachesSum(u, 2, s4, s2);
    ReachesSum(u, 4, s8, s4);
    ReachesSum(u, 8, s16, s8);
  }

  lemma {:induction false} Far(u: bv16, s16: bv16, s32: bv16, s64: bv16, s128: bv16, s256: bv16, s512: bv16,
                               s1024: bv16, s4096: bv16)
    requires Reduced(Register(u))
    requires Reaches(u, 16, s16) && Reaches(u, 32, s32) && Reaches(u, 64, s64) && Reaches(u, 128, s128)
    requires s256 == s32 ^ s16 && s512 == s64 ^ s32 && s1024 == s128 ^ s64 && s4096 == s512 ^ s256
    ensures Reaches(u, 512, s512) && Reaches(u, 1024, s1024) && Reaches(u, 4096, s4096)
  {
    PowersOfTwo(Register(u));
    ReachesSum(u, 16, s32, s16);
    ReachesSum(u, 32, s64, s32);
    ReachesSum(u, 64, s128, s64);
    ReachesSum(u, 256, s512, s256);
  }

  lemma {:induction false} OneShift(u: bv16, v: bv16)
    requires Shift(u) == v
    ensures Reaches(u, 1, v)
  {
    RegisterShifts(u, 1);
  }

  lemma {:induction false} TwoShifts(u: bv16, v1: bv16, v2: bv16)
    requires Shift(u) == v1 && Shift(v1) == v2
    ensures Reaches(u, 1, v1) && Reaches(u, 2, v2)
  {
    OneShift(u, v1);
    OneShift(v1, v2);
    ReachesThen(u, 1, v1, 1, v2);
  }

  lemma {:induction false} FourShifts(u: bv16, v1: bv16, v2: bv16, v3: bv16, v4: bv16)
    requires Shift(u) == v1 && Shift(v1) == v2 && Shift(v2) == v3 && Shift(v3) == v4
    ensures Reaches(u, 1, v1) && Reaches(u, 2, v2) && Reaches(u, 3, v3) && Reaches(u, 4, v4)
  {
    TwoShifts(u, v1, v2);
    TwoShifts(v2, v3, v4);
    ReachesThen(u, 2, v2, 1, v3);
    ReachesThen(u, 2, v2, 2, v4);
  }

  /** The next eight registers, computed one by one. */
  lemma {:induction false} Eight(u: bv16, v1: bv16, v2: bv16, v3: bv16, v4: bv16, v5: bv16, v6: bv16, v7: bv16, v8: bv16)
    requires Shift(u) == v1 && Shift(v1) == v2 && Shift(v2) == v3 && Shift(v3) == v4
    requires Shift(v4) == v5 && Shift(v5) == v6 && Shift(v6) == v7 && Shift(v7) == v8
    ensures Reaches(u, 1, v1) && Reaches(u, 2, v2) && Reaches(u, 4, v4) && Reaches(u, 7, v7) && Reaches(u, 8, v8)
  {
    FourShifts(u, v1, v2, v3, v4);
    FourShifts(v4, v5, v6, v7, v8);
    ReachesThen(u, 4, v4, 3, v7);
    ReachesThen(u, 4, v4, 4, v8);
  }

  /** x + 1, and x times that. */
  const BEFORE: bv16 := 0xC000
  const START: bv16 := 0x6000

  lemma {:induction false} BeforeFifteen()
    ensures Reaches(0xC000, 15, 0xA000)
  {
    Eight(0xC000, 0x6000, 0x3000, 0x1800, 0x0C00, 0x0600, 0x0300, 0x0180, 0x00C0);
    Eight(0x00C0, 0x0060, 0x0030, 0x0018, 0x000C, 0x0006, 0x0003, 0xA000, 0x5000);
    ReachesThen(0xC000, 8, 0x00C0, 7, 0xA000);
  }

  lemma {:induction false} BeforeOne()
    ensures Reaches(0xC000, 1, 0x6000)
  {
    OneShift(0xC000, 0x6000);
  }

  lemma {:induction false} BeforeReduced()
    ensures Reduced(Register(BEFORE))
  {
    BeforeFifteen();
    BeforeOne();
    RegisterXor(0x6000, 0xC000);
  }

  lemma {:induction false} StartReduced()
    ensures Reduced(Register(START))
  {
    BeforeReduced();
    BeforeOne();
    ReachedReduced(BEFORE, 1, START);
  }

  lemma {:induction false} ReachedReduced(u: bv16, n: nat, v: bv16)
    requires Reduced(Register(u)) && Reaches(u, n, v)
    ensures Reduced(Register(v))
  {
    ReducedShifted(Register(u), n);
  }

  lemma {:induction false} From0030()
    requires Reduced(Register(0x0030))
    ensures Reaches(0x0030, 16, 0x0014) && Reaches(0x0030, 64, 0x1403)
  {
    Eight(0x0030, 0x0018, 0x000C, 0x0006, 0x0003, 0xA000, 0x5000, 0x2800, 0x1400);
    Near(0x0030, 0x0018, 0x000C, 0x0003, 0x1400, 0x0014, 0x000F, 0x1403, 0x1414);
  }

  lemma {:induction false} From0014()
    requires Reduced(Register(0x0014))
    ensures Reaches(0x0014, 64, 0xFF00)
  {
    Eight(0x0014, 0x000A, 0x0005, 0xA003, 0xF000, 0x7800, 0x3C00, 0x1E00, 0x0F00);
    Near(0x0014, 0x000A, 0x0005, 0xF000, 0x0F00, 0x000F, 0xF005, 0xFF00, 0x0F0F);
  }

  lemma {:induction false} FromFF00()
    requires Reduced(Register(0xFF00))
    ensures Reaches(0xFF00, 128, 0x40BF)
  {
    Eight(0xFF00, 0x7F80, 0x3FC0, 0x1FE0, 0x0FF0, 0x07F8, 0x03FC, 0x01FE, 0x00FF);
    Near(0xFF00, 0x7F80, 0x3FC0, 0x0FF0, 0x00FF, 0x4040, 0x3030, 0x0F0F, 0x40BF);
  }

  lemma {:induction false} From3000()
    requires Reduced(Register(0x3000))
    ensures Reaches(0x3000, 32, 0x0F00)
  {
    Eight(0x3000, 0x1800, 0x0C00, 0x0600, 0x0300, 0x0180, 0x00C0, 0x0060, 0x0030);
    Near(0x3000, 0x1800, 0x0C00, 0x0300, 0x0030, 0x1400, 0x0F00, 0x0330, 0x1430);
  }

  lemma {:induction false} From0F00()
    requires Reduced(Register(0x0F00))
    ensures Reaches(0x0F00, 1024, 0x04B0)
  {
    Eight(0x0F00, 0x0780, 0x03C0, 0x01E0, 0x00F0, 0x0078, 0x003C, 0x001E, 0x000F);
    Near(0x0F00, 0x0780, 0x03C0, 0x00F0, 0x000F, 0x0440, 0x0330, 0x00FF, 0x044F);
    Far(0x0F00, 0x0440, 0x0330, 0x00FF, 0x044F, 0x0770, 0x03CF, 0x04B0, 0x04BF);
  }

  lemma {:induction false} From1403()
    requires Reduced(Register(0x1403))
    ensures Reaches(0x1403, 512, 0x5454)
  {
    Eight(0x1403, 0xAA00, 0x5500, 0x2A80, 0x1540, 0x0AA0, 0x0550, 0x02A8, 0x0154);
    Near(0x1403, 0xAA00, 0x5500, 0x1540, 0x0154, 0xFF00, 0x4040, 0x1414, 0xFE54);
    Far(0x1403, 0xFF00, 0x4040, 0x1414, 0xFE54, 0xBF40, 0x5454, 0xEA40, 0xEB14);
  }

  lemma {:induction false} From5454()
    requires Reduced(Register(0x5454))
    ensures Reaches(0x5454, 4096, 0x352E)
  {
    Eight(0x5454, 0x2A2A, 0x1515, 0xAA8B, 0xF544, 0x7AA2, 0x3D51, 0xBEA9, 0xFF55);
    Near(0x5454, 0x2A2A, 0x1515, 0xF544, 0xFF55, 0x3F3F, 0xE051, 0x0A11, 0xC06A);
    Far(0x5454, 0x3F3F, 0xE051, 0x0A11, 0xC06A, 0xDF6E, 0xEA40, 0xCA7B, 0x352E);
  }

  lemma {:induction false} FirstNine()
    ensures Reaches(START, 1, 0x3000) && Reaches(START, 9, 0x0030)
  {
    OneShift(0x6000, 0x3000);
    Eight(0x3000, 0x1800, 0x0C00, 0x0600, 0x0300, 0x0180, 0x00C0, 0x0060, 0x0030);
    ReachesThen(START, 1, 0x3000, 8, 0x0030);
  }

  lemma {:induction false} After217()
    requires Reduced(Register(START))
    ensures Reaches(START, 217, 0x40BF)
  {
    FirstNine();
    ReachedReduced(START, 9, 0x0030);
    From0030();
    ReachesThen(START, 9, 0x0030, 16, 0x0014);
    ReachedReduced(START, 25, 0x0014);
    From0014();
    ReachesThen(START, 25, 0x0014, 64, 0xFF00);
    ReachedReduced(START, 89, 0xFF00);
    FromFF00();
    ReachesThen(START, 89, 0xFF00, 128, 0x40BF);
  }

  lemma {:induction false} After1057()
    requires Reduced(Register(START))
    ensures Reaches(START, 1057, 0x04B0)
  {
    FirstNine();
    ReachedReduced(START, 1, 0x3000);
    From3000();
    ReachesThen(START, 1, 0x3000, 32, 0x0F00);
    ReachedReduced(START, 33, 0x0F00);
    From0F00();
    ReachesThen(START, 33, 0x0F00, 1024, 0x04B0);
  }

  lemma {:induction false} After4681()
    requires Reduced(Register(START))
    ensures Reaches(START, 4681, 0x352E)
  {
    FirstNine();
    ReachedReduced(START, 9, 0x0030);
    From0030();
    ReachesThen(START, 9, 0x0030, 64, 0x1403);
    ReachedReduced(START, 73, 0x1403);
    From1403();
    ReachesThen(START, 73, 0x1403, 512, 0x5454);
    ReachedReduced(START, 585, 0x5454);
    From5454();
    ReachesThen(START, 585, 0x5454, 4096, 0x352E);
  }

  // ----- the period

  ghost predicate Returns(w: Reg, k: nat) {
    Shifted(w, k) == w
  }

  lemma {:induction false} ReturnsTimes(w: Reg, k: nat, q: nat)
    requires Returns(w, k)
    ensures Returns(w, q * k)
  {
    if q == 0 {
      assert Zeros(0) == [];
    } else {
      ReturnsTimes(w, k, q - 1);
      ShiftedTwice(w, (q - 1) * k, k);
      assert (q - 1) * k + k == q * k;
    }
  }

  lemma {:induction false} ReturnsLess(w: Reg, a: nat, b: nat)
    requires Returns(w, a + b) && Returns(w, b)
    ensures Returns(w, a)
  {
    ShiftedTwice(w, b, a);
  }

  predicate Prime(p: nat) {
    p > 1 && forall j :: 1 < j < p ==> p % j != 0
  }

  lemma {:induction false} SmallFactor(q: nat, d: nat)
    requires 2 <= d <= 12
    ensures q * d != 31 && q * d != 151
  {
    if d == 2 {} else if d == 3 {} else if d == 4 {} else if d == 5 {} else if d == 6 {} else if d == 7 {}
    else if d == 8 {} else if d == 9 {} else if d == 10 {} else if d == 11 {} else {}
  }

  lemma {:induction false} NoFactors(q: nat, j: nat)
    requires q > 1 && j > 1
    ensures q * j != 31 && q * j != 151
  {
    if j <= 12 {
      SmallFactor(q, j);
    } else if q <= 12 {
      SmallFactor(j, q);
    } else {
      assert q * j >= 13 * 13;
    }
  }

  lemma {:induction false} PrimeIfNoFactors(p: nat)
    requires p > 1 && forall q: nat, j: nat :: q > 1 && j > 1 ==> q * j != p
    ensures Prime(p)
  {
    forall j | 1 < j < p
      ensures p % j != 0
    {
      if p % j == 0 {
        Cofactor(p, j);
      }
    }
  }

  lemma {:induction false} Cofactor(p: nat, j: nat)
    requires 1 < j < p && p % j == 0
    ensures p / j > 1 && (p / j) * j == p
  {
    assert p == (p / j) * j;
  }

  lemma {:induction false} PrimeFactors()
    ensures Prime(7) && Prime(31) && Prime(151)
  {
    forall q: nat, j: nat | q > 1 && j > 1
      ensures q * j != 31 && q * j != 151
    {
      NoFactors(q, j);
    }
    PrimeIfNoFactors(31);
    PrimeIfNoFactors(151);
  }

  /** Euclid's algorithm on the multiples of `n` after which `w` returns, down to `n` itself. */
  lemma {:induction false} Descend(w: Reg, n: nat, p: nat, j: nat)
    requires Prime(p) && 1 <= j < p && Returns(w, p * n) && Returns(w, j * n)
    ensures Returns(w, n)
    decreases j
  {
    if j == 1 {
      assert j * n == n;
    } else {
      var q, r := p / j, p % j;
      ReturnsTimes(w, j * n, q);
      assert p * n == r * n + q * (j * n) by {
        assert p == r + q * j;
        assert (r + q * j) * n == r * n + q * (j * n);
      }
      ReturnsLess(w, r * n, q * (j * n));
      Descend(w, n, p, r);
    }
  }

  /** If p * n shifts lead back and n do not, every number that does is a multiple of p. */
  lemma {:induction false} ReturnsOnMultiples(w: Reg, k: nat, n: nat, p: nat)
    requires Prime(p) && Returns(w, p * n) && !Returns(w, n) && Returns(w, k)
    ensures k % p == 0
  {
    var q, r := k / p, k % p;
    if r != 0 {
      ReturnsTimes(w, k, n);
      ReturnsTimes(w, p * n, q);
      assert n * k == r * n + q * (p * n) by {
        assert k == r + q * p;
        assert n * (r + q * p) == r * n + q * (p * n);
      }
      ReturnsLess(w, r * n, q * (p * n));
      Descend(w, n, p, r);
    }
  }

  /** Bezout coefficients: 9 * 7 - 2 * 31 == 1 and 23 * 151 - 16 * 217 == 1. */
  lemma {:induction false} Bezout(k: int, x: int, y: int, z: int)
    requires k == 7 * x && k == 31 * y && k == 151 * z
    ensures k == 32767 * (23 * (9 * y - 2 * x) - 16 * z)
  {
    assert k == 217 * (9 * y - 2 * x);
  }

  lemma {:induction false} MultipleOfPeriod(c: int)
    ensures (32767 * c) % 32767 == 0
  {
  }

  lemma {:induction false} Quotients(k: nat)
    requires k % 7 == 0 && k % 31 == 0 && k % 151 == 0
    ensures k == 7 * (k / 7) && k == 31 * (k / 31) && k == 151 * (k / 151)
  {
  }

  lemma {:induction false} ByAllFactors(k: nat)
    requires k % 7 == 0 && k % 31 == 0 && k % 151 == 0
    ensures k % 32767 == 0
  {
    var x, y, z := k / 7, k / 31, k / 151;
    Quotients(k);
    Bezout(k, x, y, z);
    MultipleOfPeriod(23 * (9 * y - 2 * x) - 16 * z);
  }

  lemma {:induction false} DifferentRegisters(v: bv16, w: bv16)
    requires v != w
    ensures Register(v) != Register(w)
  {
    if Register(v) == Register(w) {
      RegisterInjective(v, w);
    }
  }

  lemma {:induction false} StartReturns()
    ensures Returns(Register(START), 32767)
  {
    BeforeReduced();
    Frobenius(Register(BEFORE));
    BeforeOne();
    ShiftedTwice(Register(BEFORE), 1, 32767);
  }

  lemma {:induction false} OnlyMultiples(w: Reg, k: nat)
    requires Returns(w, 32767) && !Returns(w, 217) && !Returns(w, 1057) && !Returns(w, 4681)
    ensures Returns(w, k) <==> k % 32767 == 0
  {
    if k % 32767 == 0 {
      ReturnsTimes(w, 32767, k / 32767);
    }
    if Returns(w, k) {
      PrimeFactors();
      ReturnsOnMultiples(w, k, 4681, 7);
      ReturnsOnMultiples(w, k, 1057, 31);
      ReturnsOnMultiples(w, k, 217, 151);
      ByAllFactors(k);
    }
  }

  /** x^32767 is the first power of x after the zeroth that leaves this register alone. */
  lemma {:induction false} PeriodOfStart(k: nat)
    ensures Returns(Register(START), k) <==> k % 32767 == 0
  {
    StartReturns();
    NotEarlier();
    OnlyMultiples(Register(START), k);
  }

  lemma {:induction false} NotEarlier()
    ensures var w := Register(START); !Returns(w, 217) && !Returns(w, 1057) && !Returns(w, 4681)
  {
    StartReduced();
    After217();
    After1057();
    After4681();
    DifferentRegisters(START, 0x40BF);
    DifferentRegisters(START, 0x04B0);
    DifferentRegisters(START, 0x352E);
  }

  /** x^15 + x + 1: shifting leaves it alone. */
  const FIXED: bv16 := 0xC001

  lemma {:induction false} FixedStays(k: nat)
    ensures Returns(Register(FIXED), k)
  {
    OneShift(0xC001, 0xC001);
    ReturnsTimes(Register(FIXED), 1, k);
  }

  /** What a single wrong bit leaves in the register comes back after every 32767 shifts and at no other time. */
  lemma {:induction false} Period(k: nat)
    ensures Returns(G[1..], k) <==> k % 32767 == 0
  {
    var w, c := Register(START), Register(FIXED);
    RegisterOfFeedback();
    RegisterXor(START, FIXED);
    FixedStays(k);
    ShiftedXor(w, c, k);
    SameSum(Shifted(w, k), w, c);
    PeriodOfStart(k);
  }

  lemma {:induction false} SameSum(a: Reg, b: Reg, c: Reg)
    ensures Xor(a, c) == Xor(b, c) <==> a == b
  {
    if Xor(a, c) == Xor(b, c) {
      forall i | 0 <= i < 16
        ensures a[i] == b[i]
      {
        assert Xor(a, c)[i] == Xor(b, c)[i];
      }
    }
  }

  // ----- two wrong bits

  /** Ones at the positions i and i + k only. */
  function TwoOnes(i: nat, k: nat, after: nat): Poly
    requires k > 0
  {
    Zeros(i) + ([true] + (Zeros(k - 1) + ([true] + Zeros(after))))
  }

  lemma {:induction false} ClockInOne(y: Reg)
    ensures Clock(y, true, G) == Xor(Clock(y, false, G), G[1..])
  {
    assert y[0] != true <==> !y[0];
  }

  lemma {:induction false} DivideOne(r: Reg, b: bool, rest: Poly)
    ensures Divide(r, [b] + rest, G) == Divide(Clock(r, b, G), rest, G)
  {
    assert ([b] + rest)[1..] == rest;
  }

  /** The register when the second wrong bit has gone in. */
  lemma {:induction false} AfterTwoOnes(k: nat)
    requires k > 0
    ensures Divide(Zeros(16), [true] + (Zeros(k - 1) + [true]), G) == Xor(Shifted(G[1..], k), G[1..])
  {
    DivideOne(Zeros(16), true, Zeros(k - 1) + [true]);
    ClockInOne(Zeros(16));
    assert Clock(Zeros(16), true, G) == G[1..];
    DivideConcat(G[1..], Zeros(k - 1), [true], G);
    var y := Shifted(G[1..], k - 1);
    DivideOne(y, true, []);
    assert [true] + [] == [true];
    ClockInOne(y);
    ShiftedTwice(G[1..], k - 1, 1);
    assert Zeros(1) == [false] + [];
    DivideOne(y, false, []);
  }

  lemma {:induction false} TwoOnesDivisible(i: nat, k: nat, after: nat)
    requires k > 0
    ensures Divide(Zeros(16), TwoOnes(i, k, after), G) == Zeros(16) <==> k % 32767 == 0
  {
    var core := [true] + (Zeros(k - 1) + [true]);
    assert TwoOnes(i, k, after) == Zeros(i) + (core + Zeros(after));
    DivideConcat(Zeros(16), Zeros(i), core + Zeros(after), G);
    ZeroStaysZero(i, G);
    DivideConcat(Zeros(16), core, Zeros(after), G);
    AfterTwoOnes(k);
    OnlyZeroReachesZero(Divide(Zeros(16), core, G), after, G);
    XorZeroIffEqual(Shifted(G[1..], k), G[1..]);
    Period(k);
  }

  /** The coefficients differ at i and at j, and nowhere else. */
  ghost predicate DifferAt(p: Poly, q: Poly, i: nat, j: nat)
    requires |p| == |q|
  {
    i < j < |p| && forall n :: 0 <= n < |p| ==> (p[n] != q[n] <==> n == i || n == j)
  }

  lemma {:induction false} DifferenceOfTwo(p: Poly, q: Poly, i: nat, j: nat)
    requires |p| == |q| && DifferAt(p, q, i, j)
    ensures i < j < |p| && Xor(p, q) == TwoOnes(i, j - i, |p| - j - 1)
  {
  }

  /** Two wrong bits are missed exactly when their distance is a multiple of 32767 bits. */
  lemma {:induction false} TwoBitErrors(a: Bytes, b: Bytes, i: nat, j: nat)
    requires |a| == |b| && DifferAt(Bits(a), Bits(b), i, j)
    ensures Crc16(a) == Crc16(b) <==> (j - i) % 32767 == 0
  {
    DifferenceOfTwo(Bits(a), Bits(b), i, j);
    TwoOnesDivisible(i, j - i, |Bits(a)| - j - 1);
    SameCrcIffDivisible(a, b);
  }

  // ----- up to three wrong bits

  /** The number of 1 coefficients. */
  function Ones(p: Poly): nat {
    if p == [] then 0 else (if p[0] then 1 else 0) + Ones(p[1..])
  }

  lemma {:induction false} OnesParity(p: Poly)
    ensures Odd(p) == (Ones(p) % 2 == 1)
  {
    if p != [] {
      OnesParity(p[1..]);
    }
  }

  lemma {:induction false} NoOnes(p: Poly)
    requires Ones(p) == 0
    ensures forall n :: 0 <= n < |p| ==> !p[n]
  {
    if p != [] {
      NoOnes(p[1..]);
      assert forall n :: 0 < n < |p| ==> p[n] == p[1..][n - 1];
    }
  }

  lemma {:induction false} TheOne(p: Poly) returns (i: nat)
    requires Ones(p) == 1
    ensures i < |p| && forall n :: 0 <= n < |p| ==> (p[n] <==> n == i)
  {
    if p[0] {
      NoOnes(p[1..]);
      i := 0;
    } else {
      i := TheOne(p[1..]);
      i := i + 1;
    }
    assert forall n :: 0 < n < |p| ==> p[n] == p[1..][n - 1];
  }

  lemma {:induction false} TheTwo(p: Poly) returns (i: nat, j: nat)
    requires Ones(p) == 2
    ensures i < j < |p| && forall n :: 0 <= n < |p| ==> (p[n] <==> n == i || n == j)
  {
    if p[0] {
      i := 0;
      j := TheOne(p[1..]);
      j := j + 1;
    } else {
      i, j := TheTwo(p[1..]);
      i, j := i + 1, j + 1;
    }
    assert forall n :: 0 < n < |p| ==> p[n] == p[1..][n - 1];
  }

  lemma {:induction false} DifferFromXor(p: Poly, q: Poly, i: nat, j: nat)
    requires |p| == |q| && i < j < |p|
    requires forall n :: 0 <= n < |p| ==> (Xor(p, q)[n] <==> n == i || n == j)
    ensures DifferAt(p, q, i, j)
  {
    forall n | 0 <= n < |p|
      ensures p[n] != q[n] <==> n == i || n == j
    {
      assert Xor(p, q)[n] == (p[n] != q[n]);
    }
  }

  lemma {:induction false} TwoDifferences(p: Poly, q: Poly) returns (i: nat, j: nat)
    requires |p| == |q| && Ones(Xor(p, q)) == 2
    ensures i < j < |p| && DifferAt(p, q, i, j)
  {
    i, j := TheTwo(Xor(p, q));
    DifferFromXor(p, q, i, j);
  }

  lemma {:induction false} TwoErrorsDetected(a: Bytes, b: Bytes)
    requires |a| == |b| && |Bits(a)| <= 32767 && Ones(Xor(Bits(a), Bits(b))) == 2
    ensures Crc16(a) != Crc16(b)
  {
    var i, j := TwoDifferences(Bits(a), Bits(b));
    TwoBitErrors(a, b, i, j);
  }

  /** Main result: in messages of at most 32767 serial bits, one, two or three wrong bits always change the checksum. */
  lemma {:induction false} ThreeBitErrorsDetected(a: Bytes, b: Bytes)
    requires |a| == |b| && |Bits(a)| <= 32767
    requires 1 <= Ones(Xor(Bits(a), Bits(b))) <= 3
    ensures Crc16(a) != Crc16(b)
  {
    if Ones(Xor(Bits(a), Bits(b))) == 2 {
      TwoErrorsDetected(a, b);
    } else {
      OnesParity(Xor(Bits(a), Bits(b)));
      OddErrorDetected(a, b);
    }
  }
}
