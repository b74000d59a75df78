/**
 Numbers in text: which texts `std::stoi` reads, and as what, in terms of their digits; and what decimal output
 looks like.
 */
module Numerals {
  import opened Words
  import opened Text

  function Pow10(n: nat): nat {
    if n == 0 then 1 else 10 * Pow10(n - 1)
  }

  /** The value of digits by their places. */
  function PlaceValue(s: string): nat
    requires AllDigits(s)
  {
    if s == "" then 0 else ((s[0] as int) - 48) * Pow10(|s| - 1) + PlaceValue(s[1..])
  }

  lemma {:induction false} PlaceValueSnoc(s: string, c: char)
    requires AllDigits(s) && IsDigit(c)
    ensures AllDigits(s + [c]) && PlaceValue(s + [c]) == 10 * PlaceValue(s) + ((c as int) - 48)
  {
    var t := s + [c];
    if s == "" {
      assert t[1..] == "";
      assert PlaceValue(t) == ((t[0] as int) - 48) * Pow10(0) + PlaceValue(t[1..]);
    } else {
      assert t[1..] == s[1..] + [c];
      PlaceValueSnoc(s[1..], c);
      TenTimes((s[0] as int) - 48, Pow10(|s| - 1));
    }
  }

  lemma {:induction false} TenTimes(d: int, p: int)
    ensures d * (10 * p) == 10 * (d * p)
  {
  }

  lemma {:induction false} ValueByPlaces(s: string)
    requires AllDigits(s)
    ensures NatValue(s) == PlaceValue(s)
    decreases |s|
  {
    if s != "" {
      var init := s[..|s| - 1];
      ValueByPlaces(init);
      PlaceValueSnoc(init, s[|s| - 1]);
      assert init + [s[|s| - 1]] == s;
    }
  }

  // ----- decimal output

  /** Digits, and no zero in front of others. */
  predicate Decimal(s: string) {
    s != "" && AllDigits(s) && (s[0] == '0' ==> |s| == 1)
  }

  lemma {:induction false} PrintedIsDecimal(n: nat)
    ensures Decimal(PrintNat(n)) && (PrintNat(n)[0] == '0' ==> n == 0)
  {
    if n >= 10 {
      PrintedIsDecimal(n / 10);
    } else {
      assert DigitValue(PrintNat(n)[0]) == n;
    }
  }

  lemma {:induction false} PrintOfValue(s: string)
    requires Decimal(s)
    ensures PrintNat(NatValue(s)) == s
    decreases |s|
  {
    var init, c := s[..|s| - 1], s[|s| - 1];
    assert s == init + [c];
    if init == "" {
      assert NatValue("") == 0;
    } else {
      PrintOfValue(init);
      NotZero(init);
    }
  }

  lemma {:induction false} NotZero(s: string)
    requires s != "" && AllDigits(s) && s[0] != '0'
    ensures NatValue(s) > 0
    decreases |s|
  {
    if |s| == 1 {
      assert s[..0] == "";
      assert DigitValue(s[0]) > 0;
    } else {
      NotZero(s[..|s| - 1]);
    }
  }

  /** A number is printed as the one text of digits without leading zeros whose places add up to it. */
  lemma {:induction false} PrintedIff(n: nat, s: string)
    ensures s == PrintNat(n) <==> Decimal(s) && PlaceValue(s) == n
  {
    PrintedIsDecimal(n);
    NatValueOfPrint(n);
    ValueByPlaces(PrintNat(n));
    if Decimal(s) {
      ValueByPlaces(s);
      PrintOfValue(s);
    }
  }

  // ----- numbers in front of other text

  predicate Spaces(s: string) {
    forall i :: 0 <= i < |s| ==> s[i] in " \t\n\U{0B}\U{0C}\r"
  }

  /** Space, a sign, digits, and then no digit. */
  predicate Numeral(s: string, space: string, sign: string, digits: string, tail: string) {
    && s == space + (sign + (digits + tail))
    && Spaces(space) && (sign == "" || sign == "+" || sign == "-")
    && digits != "" && AllDigits(digits) && (tail != "" ==> !IsDigit(tail[0]))
  }

  lemma {:induction false} SpaceIs(c: char)
    ensures IsSpace(c) <==> c in " \t\n\U{0B}\U{0C}\r"
  {
  }

  lemma {:induction false} SkipSpaceOf(space: string, rest: string)
    requires Spaces(space) && (rest != "" ==> !IsSpace(rest[0]))
    ensures SkipSpace(space + rest) == rest
  {
    if space == "" {
      assert space + rest == rest;
    } else {
      SpaceIs(space[0]);
      assert (space + rest)[1..] == space[1..] + rest;
      assert forall i :: 0 <= i < |space[1..]| ==> space[1..][i] == space[i + 1];
      SkipSpaceOf(space[1..], rest);
    }
  }

  lemma {:induction false} SpaceSkipped(s: string) returns (space: string)
    ensures Spaces(space) && s == space + SkipSpace(s)
    ensures SkipSpace(s) != "" ==> !IsSpace(SkipSpace(s)[0])
  {
    if s != "" && IsSpace(s[0]) {
      var rest := SpaceSkipped(s[1..]);
      SpaceIs(s[0]);
      space := [s[0]] + rest;
      assert s == [s[0]] + s[1..];
    } else {
      space := "";
    }
  }

  /** The text behind the space, and the sign in front of its digits. */
  lemma {:induction false} NumeralRead(s: string, space: string, sign: string, digits: string, tail: string)
    requires Numeral(s, space, sign, digits, tail)
    ensures SkipSpace(s) == sign + (digits + tail)
    ensures Magnitude(digits + tail) == Some(PlaceValue(digits))
  {
    assert IsDigit(digits[0]);
    assert (sign + (digits + tail))[0] == if sign == "" then digits[0] else sign[0];
    SkipSpaceOf(space, sign + (digits + tail));
    DigitRunOf(digits, tail);
    assert (digits + tail)[..|digits|] == digits;
    ValueByPlaces(digits);
  }

  lemma {:induction false} MagnitudeCut(u: string) returns (digits: string, tail: string)
    requires Magnitude(u).Some?
    ensures u == digits + tail && digits != "" && AllDigits(digits) && (tail != "" ==> !IsDigit(tail[0]))
  {
    var n := DigitRun(u);
    digits, tail := u[..n], u[n..];
  }

  lemma {:induction false} NumeralFound(s: string) returns (space: string, sign: string, digits: string, tail: string)
    requires var t := SkipSpace(s);
      Magnitude(if t != "" && (t[0] == '-' || t[0] == '+') then t[1..] else t).Some?
    ensures Numeral(s, space, sign, digits, tail)
  {
    var t := SkipSpace(s);
    space := SpaceSkipped(s);
    if t != "" && (t[0] == '-' || t[0] == '+') {
      sign := [t[0]];
      digits, tail := MagnitudeCut(t[1..]);
    } else {
      sign := "";
      digits, tail := MagnitudeCut(t);
    }
  }

  /** The number of a numeral. */
  function Signed(sign: string, digits: string): int
    requires AllDigits(digits)
  {
    if sign == "-" then 0 - PlaceValue(digits) else PlaceValue(digits)
  }

  ghost predicate ReadsAs(s: string, v: int) {
    exists space, sign, digits, tail :: Numeral(s, space, sign, digits, tail) && Signed(sign, digits) == v
  }

  lemma {:induction false} StoiOfNumeral(s: string, space: string, sign: string, digits: string, tail: string)
    requires Numeral(s, space, sign, digits, tail)
    ensures var v := Signed(sign, digits);
      Stoi(s) == if -0x8000_0000 <= v < 0x8000_0000 then Some(v) else None
  {
    NumeralRead(s, space, sign, digits, tail);
    var u := digits + tail;
    assert IsDigit(digits[0]) && u[0] == digits[0];
    if sign == "" {
      assert sign + u == u;
    } else {
      assert (sign + u)[1..] == u && (sign + u)[0] == sign[0];
    }
  }

  /** Main result: `std::stoi` gives a number for exactly the texts that start, behind any space, with a numeral in
      range, whatever follows it, and it is the value of its digits by their places; for all others it throws. */
  lemma {:induction false} StoiIff(s: string, v: int)
    ensures (Stoi(s).Some? && Stoi(s).value == v) <==> ReadsAs(s, v) && -0x8000_0000 <= v < 0x8000_0000
  {
    if ReadsAs(s, v) {
      var space, sign, digits, tail :| Numeral(s, space, sign, digits, tail) && Signed(sign, digits) == v;
      StoiOfNumeral(s, space, sign, digits, tail);
    }
    if Stoi(s).Some? {
      var space, sign, digits, tail := NumeralFound(s);
      StoiOfNumeral(s, space, sign, digits, tail);
    }
  }
}
