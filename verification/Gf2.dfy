/**
 Polynomials over GF(2), as coefficient sequences with the highest power first, and the
 shift-register long division that a cyclic redundancy check performs.

 Nothing here is special to one generator: `g` is any polynomial of degree |g| - 1 whose
 leading coefficient is 1; some results also need its constant term to be 1.
 */
module Gf2 {

  type Poly = seq<bool>

  function Zeros(n: nat): (z: Poly)
    ensures |z| == n && forall i :: 0 <= i < n ==> !z[i]
  {
    seq(n, _ => false)
  }

  /** Addition; subtraction is the same operation. */
  function Xor(a: Poly, b: Poly): (c: Poly)
    requires |a| == |b|
    ensures |c| == |a| && forall i {:trigger c[i]} :: 0 <= i < |c| ==> c[i] == (a[i] != b[i])
  {
    seq(|a|, i requires 0 <= i < |a| => a[i] != b[i])
  }

  /** Schoolbook multiplication of `q` by `g`. */
  function Mul(q: Poly, g: Poly): (p: Poly)
    requires |g| > 0
    ensures |p| == |q| + |g| - 1
  {
    if q == [] then Zeros(|g| - 1)
    else Xor((if q[0] then g else Zeros(|g|)) + Zeros(|q| - 1), [false] + Mul(q[1..], g))
  }

  ghost predicate Generator(g: Poly) {
    |g| > 1 && g[0]
  }

  /** q * g + r */
  function Recompose(q: Poly, g: Poly, r: Poly): (p: Poly)
    requires |g| > 0 && |r| == |g| - 1
  {
    Xor(Mul(q, g), Zeros(|q|) + r)
  }

  /** `r` is the remainder of `p` divided by `g`. */
  ghost predicate IsRemainder(p: Poly, g: Poly, r: Poly) {
    && |g| > 0 && |r| == |g| - 1
    && exists q: Poly :: Recompose(q, g, r) == p
  }

  /** The leading term that quotient bit `c` contributes, with `n` quotient bits to follow. */
  function Lead(c: bool, g: Poly, n: nat): (p: Poly)
    ensures |p| == |g| + n
  {
    (if c then g else Zeros(|g|)) + Zeros(n)
  }

  lemma {:induction false} RecomposeStep(c: bool, q: Poly, g: Poly, r: Poly)
    requires |g| > 1 && |r| == |g| - 1
    ensures Recompose([c] + q, g, r) == Xor(Lead(c, g, |q|), [false] + Recompose(q, g, r))
  {
    assert ([c] + q)[1..] == q;
    assert Zeros(|q| + 1) + r == [false] + (Zeros(|q|) + r);
  }

  lemma {:induction false} XorCancels(a: Poly, b: Poly, b': Poly)
    requires |a| == |b| == |b'| && Xor(a, b) == Xor(a, b')
    ensures b == b'
  {
    forall i | 0 <= i < |b|
      ensures b[i] == b'[i]
    {
      assert Xor(a, b)[i] == Xor(a, b')[i];
    }
  }

  lemma {:induction false} QuotientAndRemainderUnique(q: Poly, r: Poly, q': Poly, r': Poly, g: Poly)
    requires Generator(g) && |r| == |r'| == |g| - 1
    requires Recompose(q, g, r) == Recompose(q', g, r')
    ensures q == q' && r == r'
    decreases |q|
  {
    var p, p' := Recompose(q, g, r), Recompose(q', g, r');
    assert |q| == |p| - |r| == |q'|;
    if q == [] {
      XorCancels(Mul(q, g), Zeros(0) + r, Zeros(0) + r');
      assert Zeros(0) + r == r && Zeros(0) + r' == r';
    } else {
      var t, t' := [false] + Recompose(q[1..], g, r), [false] + Recompose(q'[1..], g, r');
      var lead := Lead(q[0], g, |q| - 1);
      assert q == [q[0]] + q[1..] && q' == [q'[0]] + q'[1..];
      RecomposeStep(q[0], q[1..], g, r);
      RecomposeStep(q'[0], q'[1..], g, r');
      assert p[0] == q[0] && p'[0] == q'[0];
      XorCancels(lead, t, t');
      assert t[1..] == Recompose(q[1..], g, r) && t'[1..] == Recompose(q'[1..], g, r');
      QuotientAndRemainderUnique(q[1..], r, q'[1..], r', g);
    }
  }

  lemma {:induction false} RemainderUnique(p: Poly, g: Poly, r: Poly, r': Poly)
    requires Generator(g) && IsRemainder(p, g, r) && IsRemainder(p, g, r')
    ensures r == r'
  {
    var q :| Recompose(q, g, r) == p;
    var q' :| Recompose(q', g, r') == p;
    QuotientAndRemainderUnique(q, r, q', r', g);
  }

  /** One clock of the division register: shift in nothing, feed back register top + input. */
  function Clock(r: Poly, b: bool, g: Poly): (r': Poly)
    requires |g| > 1 && |r| == |g| - 1
    ensures |r'| == |r|
  {
    Xor(r[1..] + [false], if r[0] != b then g[1..] else Zeros(|r|))
  }

  /** The register after clocking in `bits`, first bit first. */
  function Divide(r: Poly, bits: Poly, g: Poly): (r': Poly)
    requires |g| > 1 && |r| == |g| - 1
    ensures |r'| == |r|
    decreases |bits|
  {
    if bits == [] then r else Divide(Clock(r, bits[0], g), bits[1..], g)
  }

  /** bits * x^|r| + r * x^|bits|: what a register preset to `r` divides. */
  function Dividend(r: Poly, bits: Poly): (p: Poly)
    ensures |p| == |r| + |bits|
  {
    Xor(r + Zeros(|bits|), bits + Zeros(|r|))
  }

  lemma {:induction false} DividendStep(r: Poly, b: bool, bits: Poly, g: Poly)
    requires Generator(g) && |r| == |g| - 1
    ensures Dividend(r, [b] + bits)
         == Xor(Lead(r[0] != b, g, |bits|), [false] + Dividend(Clock(r, b, g), bits))
  {
    var r' := Clock(r, b, g);
    var p, d := Dividend(r, [b] + bits), Dividend(r', bits);
    var lead := Lead(r[0] != b, g, |bits|);
    assert p[0] == lead[0];
    forall i | 0 <= i < |d|
      ensures p[i + 1] == (lead[i + 1] != d[i])
    {
      assert d[i] == ((r' + Zeros(|bits|))[i] != (bits + Zeros(|r|))[i]);
      assert p[i + 1] == ((r + Zeros(|bits| + 1))[i + 1] != (bits + Zeros(|r|))[i]);
    }
    assert p == Xor(lead, [false] + d);
  }

  /** The bits fed back are the quotient, the register left over is the remainder. */
  lemma {:induction false} DivideIsDivision(r: Poly, bits: Poly, g: Poly) returns (q: Poly)
    requires Generator(g) && |r| == |g| - 1
    ensures |q| == |bits|
    ensures Recompose(q, g, Divide(r, bits, g)) == Dividend(r, bits)
    decreases |bits|
  {
    if bits == [] {
      q := [];
      assert Recompose(q, g, r) == Dividend(r, bits);
    } else {
      var r' := Clock(r, bits[0], g);
      var q' := DivideIsDivision(r', bits[1..], g);
      q := [r[0] != bits[0]] + q';
      assert bits == [bits[0]] + bits[1..];
      DividendStep(r, bits[0], bits[1..], g);
      RecomposeStep(r[0] != bits[0], q', g, Divide(r', bits[1..], g));
    }
  }

  lemma {:induction false} DivideConcat(r: Poly, a: Poly, b: Poly, g: Poly)
    requires |g| > 1 && |r| == |g| - 1
    ensures Divide(r, a + b, g) == Divide(Divide(r, a, g), b, g)
    decreases |a|
  {
    if a == [] {
      assert a + b == b;
    } else {
      assert (a + b)[1..] == a[1..] + b;
      DivideConcat(Clock(r, a[0], g), a[1..], b, g);
    }
  }

  lemma {:induction false} DivideLinear(r: Poly, a: Poly, s: Poly, b: Poly, g: Poly)
    requires |g| > 1 && |r| == |s| == |g| - 1 && |a| == |b|
    ensures Divide(Xor(r, s), Xor(a, b), g) == Xor(Divide(r, a, g), Divide(s, b, g))
    decreases |a|
  {
    if a != [] {
      assert Clock(Xor(r, s), Xor(a, b)[0], g) == Xor(Clock(r, a[0], g), Clock(s, b[0], g));
      assert Xor(a, b)[1..] == Xor(a[1..], b[1..]);
      DivideLinear(Clock(r, a[0], g), a[1..], Clock(s, b[0], g), b[1..], g);
    } else {
      assert Xor(a, b) == [];
    }
  }

  /** Bits may be added to the register all at once instead of one per clock. */
  lemma {:induction false} PreloadBits(r: Poly, w: Poly, g: Poly)
    requires |g| > 1 && |r| == |g| - 1 && |w| <= |r|
    ensures Divide(Xor(r, w + Zeros(|r| - |w|)), Zeros(|w|), g) == Divide(r, w, g)
    decreases |w|
  {
    var loaded := Xor(r, w + Zeros(|r| - |w|));
    if w == [] {
      assert loaded == r;
    } else {
      var r' := Clock(r, w[0], g);
      assert Clock(loaded, false, g) == Xor(r', w[1..] + Zeros(|r| - |w| + 1));
      assert Zeros(|w|)[1..] == Zeros(|w| - 1);
      PreloadBits(r', w[1..], g);
    }
  }

  lemma {:induction false} ZeroStaysZero(n: nat, g: Poly)
    requires |g| > 1
    ensures Divide(Zeros(|g| - 1), Zeros(n), g) == Zeros(|g| - 1)
  {
    if n > 0 {
      assert Clock(Zeros(|g| - 1), false, g) == Zeros(|g| - 1);
      assert Zeros(n)[1..] == Zeros(n - 1);
      ZeroStaysZero(n - 1, g);
    }
  }

  lemma {:induction false} ClockZero(r: Poly, g: Poly)
    requires |g| > 1 && g[|g| - 1] && |r| == |g| - 1
    ensures Clock(r, false, g) == Zeros(|r|) <==> r == Zeros(|r|)
  {
    var r' := Clock(r, false, g);
    if r == Zeros(|r|) {
      assert r' == Zeros(|r|);
    }
    if r' == Zeros(|r|) {
      assert r'[|r| - 1] == r[0];
      assert forall i :: 0 < i < |r| ==> r'[i - 1] == r[i];
      assert r == Zeros(|r|);
    }
  }

  /** With constant term 1 the clock is invertible: only the zero register runs down to zero. */
  lemma {:induction false} OnlyZeroReachesZero(r: Poly, n: nat, g: Poly)
    requires |g| > 1 && g[|g| - 1] && |r| == |g| - 1
    ensures Divide(r, Zeros(n), g) == Zeros(|r|) <==> r == Zeros(|r|)
    decreases n
  {
    if n > 0 {
      var r' := Clock(r, false, g);
      assert Zeros(n)[1..] == Zeros(n - 1);
      OnlyZeroReachesZero(r', n - 1, g);
      ClockZero(r, g);
    }
  }

  lemma {:induction false} XorZeroIffEqual(a: Poly, b: Poly)
    requires |a| == |b|
    ensures Xor(a, b) == Zeros(|a|) <==> a == b
  {
    if Xor(a, b) == Zeros(|a|) {
      forall i | 0 <= i < |a|
        ensures a[i] == b[i]
      {
        assert !Xor(a, b)[i];
      }
    }
    if a == b {
      assert Xor(a, b) == Zeros(|a|);
    }
  }

  /** A register-sized block clears the register exactly when it equals the register. */
  lemma {:induction false} BlockClears(r: Poly, w: Poly, g: Poly)
    requires |g| > 1 && g[|g| - 1] && |r| == |w| == |g| - 1
    ensures Divide(r, w, g) == Zeros(|r|) <==> w == r
  {
    PreloadBits(r, w, g);
    assert w + Zeros(0) == w;
    OnlyZeroReachesZero(Xor(r, w), |w|, g);
    XorZeroIffEqual(r, w);
  }

  /** A non-zero block no longer than the register never leaves a cleared register cleared. */
  lemma {:induction false} ShortBlockLeavesTrace(w: Poly, g: Poly)
    requires |g| > 1 && g[|g| - 1] && |w| < |g| && true in w
    ensures Divide(Zeros(|g| - 1), w, g) != Zeros(|g| - 1)
  {
    var n := |g| - 1;
    var padded := w + Zeros(n - |w|);
    var i :| 0 <= i < |w| && w[i];
    assert padded[i];
    assert Xor(Zeros(n), padded) == padded;
    PreloadBits(Zeros(n), w, g);
    OnlyZeroReachesZero(padded, |w|, g);
  }

  /** A non-zero error that fits in a window of |g| - 1 bits is never divisible by `g`. */
  lemma {:induction false} BurstNotDivisible(before: nat, w: Poly, after: nat, g: Poly)
    requires |g| > 1 && g[|g| - 1] && |w| < |g| && true in w
    ensures Divide(Zeros(|g| - 1), Zeros(before) + w + Zeros(after), g) != Zeros(|g| - 1)
  {
    var z := Zeros(|g| - 1);
    DivideConcat(z, Zeros(before) + w, Zeros(after), g);
    DivideConcat(z, Zeros(before), w, g);
    ZeroStaysZero(before, g);
    ShortBlockLeavesTrace(w, g);
    OnlyZeroReachesZero(Divide(z, w, g), after, g);
  }

  /** An error pattern confined to a window is that window between two runs of zeros. */
  lemma {:induction false} Window(d: Poly, first: nat, last: nat)
    requires first <= last <= |d|
    requires forall i :: 0 <= i < |d| && d[i] ==> first <= i < last
    ensures d == Zeros(first) + d[first..last] + Zeros(|d| - last)
  {
  }

  lemma {:induction false} OneInside(d: Poly, first: nat, last: nat, at: nat)
    requires first <= at < last <= |d| && d[at]
    ensures true in d[first..last]
  {
    assert d[first..last][at - first];
  }

  lemma {:induction false} BurstInWindow(d: Poly, first: nat, at: nat, g: Poly)
    requires |g| > 1 && g[|g| - 1] && at < |d| && d[at]
    requires forall i :: 0 <= i < |d| && d[i] ==> first <= i < first + |g| - 1
    ensures Divide(Zeros(|g| - 1), d, g) != Zeros(|g| - 1)
  {
    var last := if first + |g| - 1 <= |d| then first + |g| - 1 else |d|;
    OneInside(d, first, last, at);
    Window(d, first, last);
    BurstNotDivisible(first, d[first..last], |d| - last, g);
  }

  /** True when the number of 1 coefficients is odd, that is, the value at x = 1. */
  function Odd(p: Poly): bool {
    if p == [] then false else p[0] != Odd(p[1..])
  }

  lemma {:induction false} OddXor(a: Poly, b: Poly)
    requires |a| == |b|
    ensures Odd(Xor(a, b)) == (Odd(a) != Odd(b))
  {
    if a != [] {
      assert Xor(a, b)[1..] == Xor(a[1..], b[1..]);
      OddXor(a[1..], b[1..]);
    }
  }

  lemma {:induction false} OddConcat(a: Poly, b: Poly)
    ensures Odd(a + b) == (Odd(a) != Odd(b))
  {
    if a == [] {
      assert a + b == b;
    } else {
      assert (a + b)[1..] == a[1..] + b;
      OddConcat(a[1..], b);
    }
  }

  lemma {:induction false} ZerosNotOdd(n: nat)
    ensures !Odd(Zeros(n))
  {
    if n > 0 {
      assert Zeros(n)[1..] == Zeros(n - 1);
      ZerosNotOdd(n - 1);
    }
  }

  /** Division by a generator with an even number of terms keeps parity. */
  lemma {:induction false} DivideKeepsParity(r: Poly, bits: Poly, g: Poly)
    requires Generator(g) && !Odd(g) && |r| == |g| - 1
    ensures Odd(Divide(r, bits, g)) == (Odd(r) != Odd(bits))
    decreases |bits|
  {
    if bits != [] {
      var r' := Clock(r, bits[0], g);
      var feedback := if r[0] != bits[0] then g[1..] else Zeros(|r|);
      OddXor(r[1..] + [false], feedback);
      OddConcat(r[1..], [false]);
      ZerosNotOdd(|r|);
      assert Odd([false]) == false;
      assert Odd(r') == (Odd(r) != bits[0]);
      DivideKeepsParity(r', bits[1..], g);
    }
  }
}
