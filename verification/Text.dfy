/**
 The parts of the C++ string library that the program leans on: trimming, `std::getline`,
 decimal output and `std::stoi`. Characters stand for bytes.
 */
module Text {

  import opened Words

  // ----- trimming

  predicate IsBlank(c: char) {
    c == ' ' || c == '\t' || c == '\r' || c == '\n'
  }

  predicate AllBlank(s: string) {
    forall i :: 0 <= i < |s| ==> IsBlank(s[i])
  }

  predicate Trimmed(s: string) {
    s != "" ==> !IsBlank(s[0]) && !IsBlank(s[|s| - 1])
  }

  function TrimLeft(s: string): string {
    if s != "" && IsBlank(s[0]) then TrimLeft(s[1..]) else s
  }

  function TrimRight(s: string): string {
    if s != "" && IsBlank(s[|s| - 1]) then TrimRight(s[..|s| - 1]) else s
  }

  function Trim(s: string): string {
    TrimRight(TrimLeft(s))
  }

  lemma {:induction false} TrimLeftTrims(s: string)
    ensures var t := TrimLeft(s); t != "" ==> !IsBlank(t[0])
    ensures forall c :: c in TrimLeft(s) ==> c in s
  {
    if s != "" && IsBlank(s[0]) {
      TrimLeftTrims(s[1..]);
    }
  }

  lemma {:induction false} TrimRightTrims(s: string)
    ensures var t := TrimRight(s); t != "" ==> !IsBlank(t[|t| - 1])
    ensures TrimRight(s) <= s
  {
    if s != "" && IsBlank(s[|s| - 1]) {
      TrimRightTrims(s[..|s| - 1]);
    }
  }

  lemma {:induction false} TrimTrims(s: string)
    ensures Trimmed(Trim(s))
    ensures forall c :: c in Trim(s) ==> c in s
  {
    TrimLeftTrims(s);
    TrimRightTrims(TrimLeft(s));
  }

  lemma {:induction false} TrimLeftSkips(a: string, t: string)
    requires AllBlank(a)
    ensures TrimLeft(a + t) == TrimLeft(t)
  {
    if a == "" {
      assert a + t == t;
    } else {
      assert (a + t)[1..] == a[1..] + t;
      TrimLeftSkips(a[1..], t);
    }
  }

  lemma {:induction false} TrimRightSkips(t: string, b: string)
    requires AllBlank(b)
    ensures TrimRight(t + b) == TrimRight(t)
  {
    if b == "" {
      assert t + b == t;
    } else {
      assert (t + b)[..|t + b| - 1] == t + b[..|b| - 1];
      TrimRightSkips(t, b[..|b| - 1]);
    }
  }

  /** Trimming removes exactly the blanks around a trimmed core, so the core is unique. */
  lemma {:induction false} TrimFindsCore(a: string, t: string, b: string)
    requires AllBlank(a) && Trimmed(t) && AllBlank(b)
    ensures Trim(a + t + b) == t
  {
    assert a + t + b == a + (t + b);
    TrimLeftSkips(a, t + b);
    if t == "" {
      assert t + b == b + "";
      TrimLeftSkips(b, "");
    } else {
      assert TrimLeft(t + b) == t + b;
      TrimRightSkips(t, b);
    }
  }

  lemma {:induction false} TrimOfTrimmed(t: string)
    requires Trimmed(t)
    ensures Trim(t) == t
  {
  }

  function Map<A, B>(f: A -> B, s: seq<A>): (t: seq<B>)
    ensures |t| == |s|
  {
    if s == [] then [] else [f(s[0])] + Map(f, s[1..])
  }

  lemma {:induction false} MapConcat<A, B>(f: A -> B, a: seq<A>, b: seq<A>)
    ensures Map(f, a + b) == Map(f, a) + Map(f, b)
  {
    if a == [] {
      assert a + b == b;
    } else {
      assert (a + b)[1..] == a[1..] + b;
      MapConcat(f, a[1..], b);
    }
  }

  // ----- std::getline

  /** The first position of `c`, or |s|. */
  function IndexOf(s: string, c: char): (i: nat)
    ensures i <= |s|
    ensures forall j :: 0 <= j < i ==> s[j] != c
    ensures i < |s| ==> s[i] == c
  {
    if s == "" || s[0] == c then 0 else 1 + IndexOf(s[1..], c)
  }

  lemma {:induction false} IndexOfConcat(a: string, c: char, b: string)
    requires c !in a
    ensures IndexOf(a + [c] + b, c) == |a|
  {
    var s := a + [c] + b;
    assert s[|a|] == c;
    assert forall j :: 0 <= j < |a| ==> s[j] == a[j];
  }

  /** The strings that repeated calls of std::getline(stream, line, sep) deliver. */
  function Split(s: string, sep: char): (parts: seq<string>)
    ensures forall i :: 0 <= i < |parts| ==> sep !in parts[i]
    decreases |s|
  {
    if s == "" then []
    else
      var i := IndexOf(s, sep);
      if i < |s| then [s[..i]] + Split(s[i + 1..], sep) else [s]
  }

  lemma {:induction false} SplitFirst(a: string, sep: char, rest: string)
    requires sep !in a
    ensures Split(a + [sep] + rest, sep) == [a] + Split(rest, sep)
  {
    var s := a + [sep] + rest;
    IndexOfConcat(a, sep, rest);
    assert s[..|a|] == a && s[|a| + 1..] == rest;
  }

  lemma {:induction false} SplitLast(a: string, sep: char)
    requires sep !in a && a != ""
    ensures Split(a, sep) == [a]
  {
  }

  /** An input stream read with std::getline. */
  class InStream {
    var rest: string

    constructor (s: string)
      ensures rest == s
    {
      rest := s;
    }

    method GetLine(sep: char) returns (ok: bool, line: string)
      modifies this
      ensures ok == (old(rest) != "")
      ensures Split(old(rest), sep) == if ok then [line] + Split(rest, sep) else []
    {
      if rest == "" {
        return false, "";
      }
      var i := IndexOf(rest, sep);
      assert i == |rest| ==> rest[..i] == rest && Split(rest, sep) == [rest] + Split("", sep);
      ok, line := true, rest[..i];
      rest := if i < |rest| then rest[i + 1..] else "";
    }
  }

  /** Every line followed by a newline. */
  function Unlines(lines: seq<string>): string {
    if lines == [] then "" else lines[0] + "\n" + Unlines(lines[1..])
  }

  lemma {:induction false} SplitUnlines(lines: seq<string>)
    requires forall i :: 0 <= i < |lines| ==> '\n' !in lines[i]
    ensures Split(Unlines(lines), '\n') == lines
  {
    if lines != [] {
      SplitUnlines(lines[1..]);
      SplitFirst(lines[0], '\n', Unlines(lines[1..]));
    }
  }

  // ----- decimal numbers

  predicate IsDigit(c: char) {
    '0' <= c <= '9'
  }

  function DigitValue(c: char): (d: nat)
    requires IsDigit(c)
    ensures d < 10
  {
    (c as int) - ('0' as int)
  }

  function Digit(d: nat): (c: char)
    requires d < 10
    ensures IsDigit(c) && DigitValue(c) == d
  {
    (d + '0' as int) as char
  }

  predicate AllDigits(s: string) {
    forall i :: 0 <= i < |s| ==> IsDigit(s[i])
  }

  function PrintNat(n: nat): (s: string)
    ensures s != "" && AllDigits(s)
  {
    if n < 10 then [Digit(n)] else PrintNat(n / 10) + [Digit(n % 10)]
  }

  function PrintInt(x: int): (s: string)
    ensures s != ""
  {
    if x < 0 then "-" + PrintNat(-x) else PrintNat(x)
  }

  function NatValue(s: string): nat
    requires AllDigits(s)
  {
    if s == "" then 0 else 10 * NatValue(s[..|s| - 1]) + DigitValue(s[|s| - 1])
  }

  lemma {:induction false} NatValueOfPrint(n: nat)
    ensures NatValue(PrintNat(n)) == n
  {
    var s := PrintNat(n);
    if n < 10 {
      assert s[..0] == "";
    } else {
      assert s[..|s| - 1] == PrintNat(n / 10);
      NatValueOfPrint(n / 10);
    }
  }

  /** The length of the longest prefix of digits. */
  function DigitRun(s: string): (n: nat)
    ensures n <= |s| && AllDigits(s[..n])
    ensures n < |s| ==> !IsDigit(s[n])
  {
    if s == "" || !IsDigit(s[0]) then 0
    else
      var n := 1 + DigitRun(s[1..]);
      assert s[..n] == [s[0]] + s[1..][..n - 1];
      n
  }

  /** isspace in the C locale. */
  predicate IsSpace(c: char) {
    IsBlank(c) || c == '\U{0B}' || c == '\U{0C}'
  }

  function SkipSpace(s: string): string {
    if s != "" && IsSpace(s[0]) then SkipSpace(s[1..]) else s
  }

  /** The digits after an optional sign, as a number; None when there are none. */
  function Magnitude(u: string): Option<nat> {
    var n := DigitRun(u);
    if n == 0 then None else Some(NatValue(u[..n]))
  }

  /** std::stoi: leading space, a sign and digits are read, the rest is ignored; None where it throws. */
  function Stoi(s: string): Option<int32> {
    var t := SkipSpace(s);
    var signed := t != "" && (t[0] == '-' || t[0] == '+');
    match Magnitude(if signed then t[1..] else t)
    case None => None
    case Some(m) =>
      var v := (if signed && t[0] == '-' then -1 else 1) * m;
      if -0x8000_0000 <= v < 0x8000_0000 then Some(v) else None
  }

  lemma {:induction false} DigitRunOf(digits: string, tail: string)
    requires AllDigits(digits) && (tail != "" ==> !IsDigit(tail[0]))
    ensures DigitRun(digits + tail) == |digits|
  {
    if digits == "" {
      assert digits + tail == tail;
    } else {
      assert (digits + tail)[1..] == digits[1..] + tail;
      DigitRunOf(digits[1..], tail);
    }
  }

  lemma {:induction false} MagnitudeOfPrint(m: nat, tail: string)
    requires tail != "" ==> !IsDigit(tail[0])
    ensures Magnitude(PrintNat(m) + tail) == Some(m)
  {
    var digits := PrintNat(m);
    DigitRunOf(digits, tail);
    assert (digits + tail)[..|digits|] == digits;
    NatValueOfPrint(m);
  }

  lemma {:induction false} StoiUnsigned(t: string, m: nat)
    requires t != "" && IsDigit(t[0]) && Magnitude(t) == Some(m) && m < 0x8000_0000
    ensures Stoi(t) == Some(m)
  {
    assert SkipSpace(t) == t;
  }

  lemma {:induction false} StoiNegative(t: string, m: nat)
    requires Magnitude(t) == Some(m) && m <= 0x8000_0000
    ensures Stoi("-" + t) == Some(-1 * m)
  {
    var s := "-" + t;
    assert SkipSpace(s) == s && s[1..] == t;
  }

  /** Reading back a printed integer, whatever non-digit text follows it. */
  lemma {:induction false} StoiOfPrint(x: int32, tail: string)
    requires tail != "" ==> !IsDigit(tail[0])
    ensures Stoi(PrintInt(x) + tail) == Some(x)
  {
    if x < 0 {
      MagnitudeOfPrint(-1 * x, tail);
      StoiNegative(PrintNat(-1 * x) + tail, -1 * x);
      assert PrintInt(x) + tail == "-" + (PrintNat(-1 * x) + tail);
    } else {
      MagnitudeOfPrint(x, tail);
      StoiUnsigned(PrintNat(x) + tail, x);
    }
  }

  lemma {:induction false} PrintIntChars(x: int)
    ensures forall i :: 0 <= i < |PrintInt(x)| ==> IsDigit(PrintInt(x)[i]) || PrintInt(x)[i] == '-'
  {
  }

  lemma {:induction false} PrintNatInjective(m: nat, n: nat)
    requires PrintNat(m) == PrintNat(n)
    ensures m == n
  {
    NatValueOfPrint(m);
    NatValueOfPrint(n);
  }
}
