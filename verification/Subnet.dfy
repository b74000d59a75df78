/**
 The subnet of a scan: CIDR arithmetic on 32-bit words, the addresses tried and their dotted text.

 `inet_pton` is a parameter. The dotted text is the one a little-endian machine produces.
 */
module Subnet {
  import opened Words
  import opened Text
  import opened Numerals

  // ----- CIDR

  /** The network mask: ~0U << (32 - prefix), or 0. */
  function Mask(prefix: bv8): bv32
    requires prefix <= 32
  {
    if prefix == 0 then 0 else 0xFFFF_FFFF << (32 - prefix)
  }

  /** How many host numbers are tried, 0 included; the shift is undefined for prefix 0. */
  function HostCount(prefix: bv8): bv32
    requires 1 <= prefix <= 32
  {
    var n: bv32 := 1 << (32 - prefix);
    if n > 256 then 256 else n
  }

  datatype Cidr = NotCidr | Throws | Network(base: bv32, prefix: bv8)

  /** std::stoul: a minus sign negates modulo 2^64; None where it throws. */
  function Stoul(s: string): Option<nat> {
    var t := SkipSpace(s);
    var signed := t != "" && (t[0] == '-' || t[0] == '+');
    match Magnitude(if signed then t[1..] else t)
    case None => None
    case Some(m) =>
      if m >= 0x1_0000_0000_0000_0000 then None
      else if signed && t[0] == '-' then Some((0 - m) % 0x1_0000_0000_0000_0000)
      else Some(m)
  }

  /** static_cast<uint8_t>. */
  function ToPrefix(n: nat): bv8 {
    (n % 0x100) as bv8
  }

  function NetworkOf(ip: bv32, prefix: bv8): Cidr {
    if prefix > 32 then NotCidr else Network(ip & Mask(prefix), prefix)
  }

  function ParseCidr(cidr: string, inetPton: string -> Option<bv32>): Cidr {
    var slash := IndexOf(cidr, '/');
    if slash == |cidr| then NotCidr
    else
      match inetPton(cidr[..slash])
      case None => NotCidr
      case Some(ip) =>
        match Stoul(cidr[slash + 1..])
        case None => Throws
        case Some(n) => NetworkOf(ip, ToPrefix(n))
  }

  lemma {:induction false} MaskIdempotent(ip: bv32, prefix: bv8)
    requires prefix <= 32
    ensures (ip & Mask(prefix)) & Mask(prefix) == ip & Mask(prefix)
  {
  }

  /** A parsed network is its own network address. */
  lemma {:induction false} NetworkIsMasked(cidr: string, inetPton: string -> Option<bv32>)
    requires ParseCidr(cidr, inetPton).Network?
    ensures var n := ParseCidr(cidr, inetPton); n.prefix <= 32 && n.base & Mask(n.prefix) == n.base
  {
    var slash := IndexOf(cidr, '/');
    var n := Stoul(cidr[slash + 1..]).value;
    MaskIdempotent(inetPton(cidr[..slash]).value, ToPrefix(n));
  }

  /** A written length is read with its sign, whatever text other than a digit follows it. */
  lemma {:induction false} StoulOfPrint(m: nat, tail: string)
    requires m < 0x1_0000_0000_0000_0000 && (tail != "" ==> !IsDigit(tail[0]))
    ensures Stoul(PrintNat(m) + tail) == Stoul("+" + (PrintNat(m) + tail)) == Some(m)
    ensures Stoul("-" + (PrintNat(m) + tail)) == Some((0 - m) % 0x1_0000_0000_0000_0000)
  {
    var s := PrintNat(m) + tail;
    MagnitudeOfPrint(m, tail);
    assert IsDigit(s[0]);
    StoulUnsigned(s, m);
    StoulSigned(s, m);
  }

  lemma {:induction false} StoulUnsigned(s: string, m: nat)
    requires m < 0x1_0000_0000_0000_0000 && s != "" && IsDigit(s[0]) && Magnitude(s) == Some(m)
    ensures Stoul(s) == Some(m)
  {
    assert SkipSpace(s) == s;
  }

  lemma {:induction false} StoulSigned(s: string, m: nat)
    requires m < 0x1_0000_0000_0000_0000 && Magnitude(s) == Some(m)
    ensures Stoul("+" + s) == Some(m) && Stoul("-" + s) == Some((0 - m) % 0x1_0000_0000_0000_0000)
  {
    var (plus, minus) := ("+" + s, "-" + s);
    assert SkipSpace(plus) == plus && plus[1..] == s;
    assert SkipSpace(minus) == minus && minus[1..] == s;
  }

  ghost predicate ReadsUnsigned(s: string, n: int) {
    exists space, sign, digits, tail :: Numeral(s, space, sign, digits, tail) && Wrapped(sign, digits, n)
  }

  /** A number of 64 bits, and what a minus sign makes of it. */
  predicate Wrapped(sign: string, digits: string, n: int)
    requires AllDigits(digits)
  {
    var m := PlaceValue(digits);
    m < 0x1_0000_0000_0000_0000 && n == if sign == "-" && m > 0 then 0x1_0000_0000_0000_0000 - m else m
  }

  lemma {:induction false} StoulOfNumeral(s: string, space: string, sign: string, digits: string, tail: string)
    requires Numeral(s, space, sign, digits, tail)
    ensures var m := PlaceValue(digits);
      if m >= 0x1_0000_0000_0000_0000 then Stoul(s).None? else Stoul(s).Some? && Wrapped(sign, digits, Stoul(s).value)
  {
    NumeralRead(s, space, sign, digits, tail);
    var u := digits + tail;
    assert IsDigit(digits[0]) && u[0] == digits[0];
    if sign == "" {
      assert sign + u == u;
    } else {
      assert (sign + u)[1..] == u && (sign + u)[0] == sign[0];
    }
  }

  /** `std::stoul` gives a number for exactly the texts that start with a numeral below 2^64, even a negative one; for
      all others it throws. */
  lemma {:induction false} StoulIff(s: string, n: nat)
    ensures Stoul(s) == Some(n) <==> ReadsUnsigned(s, n)
  {
    if ReadsUnsigned(s, n) {
      var space, sign, digits, tail :| Numeral(s, space, sign, digits, tail) && Wrapped(sign, digits, n);
      StoulOfNumeral(s, space, sign, digits, tail);
    }
    if Stoul(s).Some? {
      var space, sign, digits, tail := NumeralFound(s);
      StoulOfNumeral(s, space, sign, digits, tail);
    }
  }

  /** Without a slash, or when what is in front of the first one is no address, there is no network. */
  lemma {:induction false} NoNetwork(cidr: string, ip: string, text: string, inetPton: string -> Option<bv32>)
    ensures '/' !in cidr ==> ParseCidr(cidr, inetPton) == NotCidr
    ensures '/' !in ip && inetPton(ip).None? ==> ParseCidr(ip + "/" + text, inetPton) == NotCidr
  {
    if '/' !in ip {
      IndexOfConcat(ip, '/', text);
      assert (ip + "/" + text)[..|ip|] == ip;
    }
  }

  /** An address followed by any text: the number read from the text decides, after it is cut to eight bits. */
  lemma {:induction false} ParsesTo(ip: string, text: string, inetPton: string -> Option<bv32>)
    requires '/' !in ip && inetPton(ip).Some?
    ensures ParseCidr(ip + "/" + text, inetPton) ==
      match Stoul(text)
      case None => Throws
      case Some(n) => NetworkOf(inetPton(ip).value, ToPrefix(n))
  {
    var cidr := ip + "/" + text;
    IndexOfConcat(ip, '/', text);
    assert cidr[..|ip|] == ip && cidr[|ip| + 1..] == text;
  }

  /** The length is cut to eight bits before it is checked: any text is accepted exactly when a number can be read from
      it that is at most 32 modulo 256. */
  lemma {:induction false} LengthAccepted(ip: string, text: string, inetPton: string -> Option<bv32>)
    requires '/' !in ip && inetPton(ip).Some?
    ensures var c := ParseCidr(ip + "/" + text, inetPton);
      && (c.Network? <==> Stoul(text).Some? && Stoul(text).value % 0x100 <= 32)
      && (c.Throws? <==> Stoul(text).None?)
  {
    ParsesTo(ip, text, inetPton);
    if Stoul(text).Some? {
      NarrowLength(Stoul(text).value);
    }
  }

  /** The base agrees with the address in the leading bits, and has no other bits. */
  predicate Leads(base: bv32, ip: bv32, prefix: bv8)
    requires prefix <= 32
  {
    if prefix == 0 then base == 0
    else base >> (32 - prefix) == ip >> (32 - prefix) && (prefix < 32 ==> base << prefix == 0)
  }

  lemma {:induction false} MaskSplits(ip: bv32, prefix: bv8)
    requires 1 <= prefix <= 32
    ensures (ip & Mask(prefix)) >> (32 - prefix) == ip >> (32 - prefix)
    ensures prefix < 32 ==> (ip & Mask(prefix)) << prefix == 0
  {
  }

  lemma {:induction false} MaskLeads(ip: bv32, prefix: bv8)
    requires prefix <= 32
    ensures Leads(ip & Mask(prefix), ip, prefix)
  {
    if prefix > 0 {
      MaskSplits(ip, prefix);
    }
  }

  lemma {:induction false} PrefixIs(n: nat, prefix: bv8)
    requires prefix as int == n % 0x100
    ensures ToPrefix(n) == prefix
  {
  }

  lemma {:induction false} ParsedNetwork(ip: string, addr: bv32, text: string, prefix: bv8,
                                         inetPton: string -> Option<bv32>)
    requires '/' !in ip && inetPton(ip) == Some(addr)
    requires Stoul(text).Some? && ToPrefix(Stoul(text).value) == prefix && prefix <= 32
    ensures ParseCidr(ip + "/" + text, inetPton) == Network(addr & Mask(prefix), prefix)
  {
    ParsesTo(ip, text, inetPton);
  }

  lemma {:induction false} BaseLeads(c: Cidr, base: bv32, addr: bv32, prefix: bv8)
    requires prefix <= 32 && c == Network(base, prefix) && Leads(base, addr, prefix)
    ensures c.Network? && c.prefix == prefix && Leads(c.base, addr, prefix)
  {
  }

  /** An address and a text with a usable length give the network of the leading bits of the address. */
  lemma {:induction false} NetworkOfAddress(ip: string, addr: bv32, text: string, prefix: bv8,
                                            inetPton: string -> Option<bv32>)
    requires '/' !in ip && inetPton(ip) == Some(addr)
    requires Stoul(text).Some? && prefix as int == Stoul(text).value % 0x100 && prefix <= 32
    ensures var c := ParseCidr(ip + "/" + text, inetPton);
      c.Network? && c.prefix == prefix && Leads(c.base, addr, prefix)
  {
    PrefixIs(Stoul(text).value, prefix);
    ParsedNetwork(ip, addr, text, prefix, inetPton);
    MaskLeads(addr, prefix);
    BaseLeads(ParseCidr(ip + "/" + text, inetPton), addr & Mask(prefix), addr, prefix);
  }

  lemma {:induction false} NarrowLength(n: nat)
    ensures ToPrefix(n) <= 32 <==> n % 0x100 <= 32
  {
  }

  // ----- the addresses tried

  /** The host count as a number. */
  function HostTotal(prefix: bv8): (n: nat)
    requires 1 <= prefix <= 32
    ensures 1 <= n <= 256
  {
    if prefix <= 24 then 256 else if prefix == 25 then 128 else if prefix == 26 then 64
    else if prefix == 27 then 32 else if prefix == 28 then 16 else if prefix == 29 then 8
    else if prefix == 30 then 4 else if prefix == 31 then 2 else 1
  }

  lemma {:induction false} HostCountIsTotal(prefix: bv8)
    requires 1 <= prefix <= 32
    ensures HostCount(prefix) as int == HostTotal(prefix) && HostCount(prefix) <= 256
  {
  }

  /** h after i increments. */
  function HostNumber(h: bv32, i: nat): bv32
    decreases i
  {
    if i == 0 then h else HostNumber(h + 1, i - 1)
  }

  /** base | h. The counter stays below 257, so it is a number here and a word where the bits matter. */
  function Host(base: bv32, h: nat): bv32 {
    if h == 0 then base else base | HostNumber(1, h - 1)
  }

  /** base | 1, base | 2, ... in order. */
  function Addresses(base: bv32, prefix: bv8): (ips: seq<bv32>)
    requires 1 <= prefix <= 32
    ensures |ips| == HostTotal(prefix) - 1
  {
    seq(HostTotal(prefix) - 1, (i: nat) => Host(base, i + 1))
  }

  function Pow2(n: nat): nat {
    if n == 0 then 1 else 2 * Pow2(n - 1)
  }

  lemma {:induction false} Pow2Grows(n: nat)
    requires n >= 8
    ensures Pow2(n) >= 256
  {
    if n == 8 {
      assert Pow2(4) == 16;
      assert Pow2(8) == 256;
    } else {
      Pow2Grows(n - 1);
    }
  }

  lemma {:induction false} SmallPowers()
    ensures Pow2(0) == 1 && Pow2(1) == 2 && Pow2(2) == 4 && Pow2(3) == 8
    ensures Pow2(4) == 16 && Pow2(5) == 32 && Pow2(6) == 64 && Pow2(7) == 128
  {
  }

  lemma {:induction false} AtMost24(prefix: bv8)
    requires prefix <= 24
    ensures prefix as int <= 24
  {
  }

  /** Exactly min(2^(32 - prefix), 256) - 1 addresses are tried. */
  lemma {:induction false} AddressCount(base: bv32, prefix: bv8)
    requires 1 <= prefix <= 32
    ensures var size := Pow2(32 - prefix as int);
      |Addresses(base, prefix)| == (if size > 256 then 256 else size) - 1
  {
    if prefix <= 24 {
      AtMost24(prefix);
      Pow2Grows(32 - prefix as int);
    } else {
      SmallPowers();
    }
  }

  lemma {:induction false} Successor(h: bv32)
    requires h as int < 256
    ensures (h + 1) as int == h as int + 1
  {
    assert h < 256;
  }

  lemma {:induction false} SmallLess(h: bv32, n: bv32)
    requires h as int <= 256 && n <= 256
    ensures h < n <==> h as int < n as int
  {
    SmallBound(h);
  }

  lemma {:induction false} SmallBound(h: bv32)
    requires h as int <= 256
    ensures h <= 256
  {
  }

  lemma {:induction false} HostNumberValue(h: bv32, i: nat)
    requires h as int + i <= 256
    ensures HostNumber(h, i) as int == h as int + i
    decreases i
  {
    if i > 0 {
      Successor(h);
      HostNumberValue(h + 1, i - 1);
    }
  }

  lemma {:induction false} DisjointBits(base: bv32, prefix: bv8, h: bv32)
    requires 1 <= prefix <= 32 && base & Mask(prefix) == base && h < HostCount(prefix)
    ensures base & h == 0
  {
  }

  lemma {:induction false} WideSum(base: bv32, h: bv32)
    ensures base & h == 0 ==> (base | h) as bv64 == base as bv64 + h as bv64
  {
  }

  lemma {:induction false} OrStaysInNetwork(base: bv32, prefix: bv8, h: bv32)
    requires 1 <= prefix <= 32 && base & Mask(prefix) == base && h < HostCount(prefix)
    ensures (base | h) & Mask(prefix) == base
  {
  }

  lemma {:induction false} HostNumberInRange(count: bv32, i: nat)
    requires 1 <= count <= 256 && i < count as int - 1
    ensures HostNumber(1, i) as int == i + 1 && HostNumber(1, i) < count
  {
    SmallInt(count);
    HostNumberValue(1, i);
    SmallLess(HostNumber(1, i), count);
  }

  lemma {:induction false} SmallInt(n: bv32)
    requires n <= 256
    ensures n as int <= 256
  {
  }

  lemma {:induction false} NumberOfAddress(prefix: bv8, i: nat)
    requires 1 <= prefix <= 32 && i < HostTotal(prefix) - 1
    ensures HostNumber(1, i) as int == i + 1 && HostNumber(1, i) < HostCount(prefix)
  {
    HostCountIsTotal(prefix);
    HostNumberInRange(HostCount(prefix), i);
  }

  /** Every address tried lies in the network. */
  lemma {:induction false} AddressInNetwork(base: bv32, prefix: bv8, i: nat)
    requires 1 <= prefix <= 32 && base & Mask(prefix) == base && i < |Addresses(base, prefix)|
    ensures Addresses(base, prefix)[i] & Mask(prefix) == base
  {
    NumberOfAddress(prefix, i);
    OrStaysInNetwork(base, prefix, HostNumber(1, i));
  }

  lemma {:induction false} OrCancels(base: bv32, h: bv32, g: bv32)
    ensures base & h == 0 && base & g == 0 && base | h == base | g ==> h == g
  {
  }

  lemma {:induction false} NumberDisjoint(base: bv32, prefix: bv8, i: nat)
    requires 1 <= prefix <= 32 && base & Mask(prefix) == base && i < HostTotal(prefix) - 1
    ensures base & HostNumber(1, i) == 0
  {
    NumberOfAddress(prefix, i);
    DisjointBits(base, prefix, HostNumber(1, i));
  }

  /** base | h is base + h, and the sum never leaves 32 bits. */
  lemma {:induction false} HostIsSum(base: bv32, prefix: bv8, h: nat)
    requires 1 <= prefix <= 32 && base & Mask(prefix) == base && 1 <= h < HostTotal(prefix)
    ensures Host(base, h) as bv64 == base as bv64 + HostNumber(1, h - 1) as bv64
  {
    NumberDisjoint(base, prefix, h - 1);
    WideSum(base, HostNumber(1, h - 1));
  }

  /** The host number of the round h is h. */
  lemma {:induction false} NumberOfRound(h: nat)
    requires 1 <= h <= 256
    ensures HostNumber(1, h - 1) as int == h
  {
    HostNumberValue(1, h - 1);
  }

  /** The i-th address tried is the base plus the number of round i + 1: the base itself is never tried. */
  lemma {:induction false} AddressIs(base: bv32, prefix: bv8, i: nat)
    requires 1 <= prefix <= 32 && base & Mask(prefix) == base && i < |Addresses(base, prefix)|
    ensures Addresses(base, prefix)[i] as bv64 == base as bv64 + HostNumber(1, i) as bv64
  {
    HostIsSum(base, prefix, i + 1);
  }

  lemma {:induction false} SameNumber(base: bv32, i: nat, j: nat)
    requires i < 256 && j < 256
    requires base & HostNumber(1, i) == 0 && base & HostNumber(1, j) == 0
    requires base | HostNumber(1, i) == base | HostNumber(1, j)
    ensures i == j
  {
    OrCancels(base, HostNumber(1, i), HostNumber(1, j));
    HostNumberValue(1, i);
    HostNumberValue(1, j);
  }

  /** No address is tried twice. */
  lemma {:induction false} AddressesDistinct(base: bv32, prefix: bv8, i: nat, j: nat)
    requires 1 <= prefix <= 32 && base & Mask(prefix) == base
    requires i < |Addresses(base, prefix)| && j < |Addresses(base, prefix)|
    requires Addresses(base, prefix)[i] == Addresses(base, prefix)[j]
    ensures i == j
  {
    NumberDisjoint(base, prefix, i);
    NumberDisjoint(base, prefix, j);
    SameNumber(base, i, j);
  }

  // ----- the dotted text

  function Octet(ip: bv32, shift: bv8): nat
    requires shift <= 24
  {
    ((ip >> shift) & 0xFF) as int
  }

  function Quad(n0: nat, n1: nat, n2: nat, n3: nat): string {
    PrintNat(n0) + "." + (PrintNat(n1) + "." + (PrintNat(n2) + "." + PrintNat(n3)))
  }

  /** inet_ntoa of the host-order word: its bytes as they lie in memory, the lowest first. */
  function Dotted(ip: bv32): string {
    Quad(Octet(ip, 0), Octet(ip, 8), Octet(ip, 16), Octet(ip, 24))
  }

  lemma {:induction false} NoDot(n: nat)
    ensures '.' !in PrintNat(n)
  {
  }

  lemma {:induction false} DottedSplits(n: nat, rest: string, m: nat, rest': string)
    requires PrintNat(n) + "." + rest == PrintNat(m) + "." + rest'
    ensures n == m && rest == rest'
  {
    var s := PrintNat(n) + "." + rest;
    NoDot(n);
    NoDot(m);
    IndexOfConcat(PrintNat(n), '.', rest);
    IndexOfConcat(PrintNat(m), '.', rest');
    assert s[..|PrintNat(n)|] == PrintNat(n) && s[..|PrintNat(m)|] == PrintNat(m);
    assert s[|PrintNat(n)| + 1..] == rest && s[|PrintNat(m)| + 1..] == rest';
    PrintNatInjective(n, m);
  }

  lemma {:induction false} SameOctet(a: bv32, b: bv32, shift: bv8)
    requires shift <= 24
    ensures Octet(a, shift) == Octet(b, shift) ==> (a >> shift) & 0xFF == (b >> shift) & 0xFF
  {
    LowByteInjective((a >> shift) & 0xFF, (b >> shift) & 0xFF);
  }

  lemma {:induction false} LowByteInjective(x: bv32, y: bv32)
    ensures x <= 0xFF && y <= 0xFF && x as int == y as int ==> x == y
  {
  }

  lemma {:induction false} OctetsDetermine(a: bv32, b: bv32)
    ensures ((a >> 0) & 0xFF == (b >> 0) & 0xFF && (a >> 8) & 0xFF == (b >> 8) & 0xFF
             && (a >> 16) & 0xFF == (b >> 16) & 0xFF && (a >> 24) & 0xFF == (b >> 24) & 0xFF) ==> a == b
  {
  }

  lemma {:induction false} QuadInjective(m0: nat, m1: nat, m2: nat, m3: nat, n0: nat, n1: nat, n2: nat, n3: nat)
    requires Quad(m0, m1, m2, m3) == Quad(n0, n1, n2, n3)
    ensures m0 == n0 && m1 == n1 && m2 == n2 && m3 == n3
  {
    var a2, b2 := PrintNat(m2) + "." + PrintNat(m3), PrintNat(n2) + "." + PrintNat(n3);
    DottedSplits(m0, PrintNat(m1) + "." + a2, n0, PrintNat(n1) + "." + b2);
    DottedSplits(m1, a2, n1, b2);
    DottedSplits(m2, PrintNat(m3), n2, PrintNat(n3));
    PrintNatInjective(m3, n3);
  }

  lemma {:induction false} SameOctets(a: bv32, b: bv32)
    requires Octet(a, 0) == Octet(b, 0) && Octet(a, 8) == Octet(b, 8)
    requires Octet(a, 16) == Octet(b, 16) && Octet(a, 24) == Octet(b, 24)
    ensures a == b
  {
    SameOctet(a, b, 0);
    SameOctet(a, b, 8);
    SameOctet(a, b, 16);
    SameOctet(a, b, 24);
    OctetsDetermine(a, b);
  }

  /** Different addresses have different texts. */
  lemma {:induction false} DottedInjective(a: bv32, b: bv32)
    requires Dotted(a) == Dotted(b)
    ensures a == b
  {
    QuadInjective(Octet(a, 0), Octet(a, 8), Octet(a, 16), Octet(a, 24),
                  Octet(b, 0), Octet(b, 8), Octet(b, 16), Octet(b, 24));
    SameOctets(a, b);
  }

  /** The word with these four bytes, the first one lowest. */
  function FromBytes(b0: bv32, b1: bv32, b2: bv32, b3: bv32): bv32 {
    b0 | (b1 << 8) | (b2 << 16) | (b3 << 24)
  }

  lemma {:induction false} BytesBack(b0: bv32, b1: bv32, b2: bv32, b3: bv32)
    ensures b0 <= 0xFF && b1 <= 0xFF && b2 <= 0xFF && b3 <= 0xFF ==>
      var ip := FromBytes(b0, b1, b2, b3);
      && (ip >> 0) & 0xFF == b0 && (ip >> 8) & 0xFF == b1 && (ip >> 16) & 0xFF == b2 && (ip >> 24) & 0xFF == b3
  {
  }

  lemma {:induction false} OnePart(a: string, rest: string, parts: seq<string>)
    requires '.' !in a && Split(rest, '.') == parts
    ensures Split(a + "." + rest, '.') == [a] + parts
  {
    SplitFirst(a, '.', rest);
  }

  lemma {:induction false} FourParts(a: string, b: string, c: string, d: string)
    requires '.' !in a && '.' !in b && '.' !in c && '.' !in d && d != ""
    ensures Split(a + "." + (b + "." + (c + "." + d)), '.') == [a, b, c, d]
  {
    SplitLast(d, '.');
    OnePart(c, d, [d]);
    OnePart(b, c + "." + d, [c, d]);
    OnePart(a, b + "." + (c + "." + d), [b, c, d]);
  }

  lemma {:induction false} QuadSplits(n0: nat, n1: nat, n2: nat, n3: nat)
    ensures Split(Quad(n0, n1, n2, n3), '.') == [PrintNat(n0), PrintNat(n1), PrintNat(n2), PrintNat(n3)]
  {
    NoDot(n0);
    NoDot(n1);
    NoDot(n2);
    NoDot(n3);
    FourParts(PrintNat(n0), PrintNat(n1), PrintNat(n2), PrintNat(n3));
  }

  lemma {:induction false} OctetIs(ip: bv32, shift: bv8, b: bv32)
    requires shift <= 24 && (ip >> shift) & 0xFF == b
    ensures Octet(ip, shift) == b as int
  {
  }

  lemma {:induction false} DottedOf(ip: bv32, n0: nat, n1: nat, n2: nat, n3: nat)
    requires Octet(ip, 0) == n0 && Octet(ip, 8) == n1 && Octet(ip, 16) == n2 && Octet(ip, 24) == n3
    ensures Split(Dotted(ip), '.') == [PrintNat(n0), PrintNat(n1), PrintNat(n2), PrintNat(n3)]
  {
    QuadSplits(n0, n1, n2, n3);
  }

  lemma {:induction false} OctetsAre(ip: bv32, b0: bv32, b1: bv32, b2: bv32, b3: bv32)
    requires (ip >> 0) & 0xFF == b0 && (ip >> 8) & 0xFF == b1 && (ip >> 16) & 0xFF == b2 && (ip >> 24) & 0xFF == b3
    ensures Octet(ip, 0) == b0 as int && Octet(ip, 8) == b1 as int
    ensures Octet(ip, 16) == b2 as int && Octet(ip, 24) == b3 as int
  {
    OctetIs(ip, 0, b0);
    OctetIs(ip, 8, b1);
    OctetIs(ip, 16, b2);
    OctetIs(ip, 24, b3);
  }

  lemma {:induction false} BytesShown(ip: bv32, b0: bv32, b1: bv32, b2: bv32, b3: bv32)
    requires (ip >> 0) & 0xFF == b0 && (ip >> 8) & 0xFF == b1 && (ip >> 16) & 0xFF == b2 && (ip >> 24) & 0xFF == b3
    ensures Split(Dotted(ip), '.') ==
      [PrintNat(b0 as int), PrintNat(b1 as int), PrintNat(b2 as int), PrintNat(b3 as int)]
  {
    OctetsAre(ip, b0, b1, b2, b3);
    DottedOf(ip, b0 as int, b1 as int, b2 as int, b3 as int);
  }

  /** The text of an address shows its four bytes in decimal between dots, the lowest one first. */
  lemma {:induction false} DottedShowsBytes(b0: bv32, b1: bv32, b2: bv32, b3: bv32)
    requires b0 <= 0xFF && b1 <= 0xFF && b2 <= 0xFF && b3 <= 0xFF
    ensures Split(Dotted(FromBytes(b0, b1, b2, b3)), '.') ==
      [PrintNat(b0 as int), PrintNat(b1 as int), PrintNat(b2 as int), PrintNat(b3 as int)]
  {
    BytesBack(b0, b1, b2, b3);
    BytesShown(FromBytes(b0, b1, b2, b3), b0, b1, b2, b3);
  }
}
