/** The name given to a template document whose `name` is the sentinel
    "random": the standard base64 encoding (section 4 of RFC 4648, with
    padding) of the UTF-8 bytes of the file path followed by the document's
    position written in decimal. */
module Naming {
  import opened Values

  type Byte = b: int | 0 <= b < 256

  // ---------------------------------------------------------------------
  // str(n) for a non-negative integer

  function Digit(d: nat): (c: char)
    requires d < 10
    ensures '0' <= c <= '9'
  {
    ('0' as int + d) as char
  }

  function DecimalString(n: nat): (s: string)
    ensures s != []
    ensures forall i :: 0 <= i < |s| ==> '0' <= s[i] <= '9'
    decreases n
  {
    if n < 10 then [Digit(n)] else DecimalString(n / 10) + [Digit(n % 10)]
  }

  function ParseDecimal(s: string): nat
    decreases |s|
  {
    if s == [] then 0
    else
      var c := s[|s| - 1];
      ParseDecimal(s[..|s| - 1]) * 10 + (if '0' <= c <= '9' then c as int - '0' as int else 0)
  }

  /** Reading back the decimal digits gives the number. */
  lemma {:induction false} ParseDecimalString(n: nat)
    ensures ParseDecimal(DecimalString(n)) == n
    decreases n
  {
    if n >= 10 {
      var s := DecimalString(n);
      assert s[..|s| - 1] == DecimalString(n / 10);
      ParseDecimalString(n / 10);
    }
  }

  // ---------------------------------------------------------------------
  // str.encode(): UTF-8

  predicate IsScalar(n: int) {
    0 <= n < 0xD800 || 0xE000 <= n < 0x11_0000
  }

  function EncodeChar(c: char): (bs: seq<Byte>)
    ensures 1 <= |bs| <= 4
  {
    var n := c as int;
    if n < 0x80 then [n]
    else if n < 0x800 then [0xC0 + n / 0x40, 0x80 + n % 0x40]
    else if n < 0x1_0000 then [0xE0 + n / 0x1000, 0x80 + n / 0x40 % 0x40, 0x80 + n % 0x40]
    else [0xF0 + n / 0x4_0000, 0x80 + n / 0x1000 % 0x40, 0x80 + n / 0x40 % 0x40, 0x80 + n % 0x40]
  }

  function Utf8Encode(s: string): (bs: seq<Byte>)
    ensures |bs| >= |s|
  {
    if s == [] then [] else EncodeChar(s[0]) + Utf8Encode(s[1..])
  }

  /** The length of the sequence a lead byte announces; 0 for a byte that
      cannot start a sequence. */
  function SequenceLength(lead: Byte): nat {
    if lead < 0x80 then 1
    else if lead < 0xC0 then 0
    else if lead < 0xE0 then 2
    else if lead < 0xF0 then 3
    else if lead < 0xF8 then 4
    else 0
  }

  function DecodeUnit(bs: seq<Byte>): Option<char>
    requires 1 <= |bs| <= 4
  {
    var n: int :=
      if |bs| == 1 then bs[0]
      else if |bs| == 2 then Low(bs[0], 0x20) * 0x40 + Low(bs[1], 0x40)
      else if |bs| == 3 then Low(bs[0], 0x10) * 0x1000 + Low(bs[1], 0x40) * 0x40 + Low(bs[2], 0x40)
      else Low(bs[0], 0x08) * 0x4_0000 + Low(bs[1], 0x40) * 0x1000 + Low(bs[2], 0x40) * 0x40 + Low(bs[3], 0x40);
    if IsScalar(n) then Some(n as char) else None
  }

  /** The payload bits of a lead or continuation byte. */
  function Low(b: Byte, m: nat): nat
    requires m > 0
  {
    b as int % m
  }

  function Utf8Decode(bs: seq<Byte>): Option<string>
    decreases |bs|
  {
    if bs == [] then Some([])
    else
      var len := SequenceLength(bs[0]);
      if len == 0 || |bs| < len then None
      else match DecodeUnit(bs[..len])
        case None => None
        case Some(c) =>
          match Utf8Decode(bs[len..])
          case None => None
          case Some(rest) => Some([c] + rest)
  }

  lemma SixBitGroups(n: nat)
    ensures n == n / 0x40 * 0x40 + n % 0x40
    ensures n / 0x40 == n / 0x1000 * 0x40 + n / 0x40 % 0x40
    ensures n / 0x1000 == n / 0x4_0000 * 0x40 + n / 0x1000 % 0x40
  {
    assert n / 0x1000 == n / 0x40 / 0x40;
    assert n / 0x4_0000 == n / 0x1000 / 0x40;
  }

  /** A lead or continuation byte gives back the payload it was built from. */
  lemma LowOfContinuation(k: nat)
    requires k < 0x40
    ensures Low(0x80 + k, 0x40) == k
  {
  }

  lemma LowOfLead(mark: nat, k: nat, m: nat)
    requires (mark, m) == (0xC0, 0x20) || (mark, m) == (0xE0, 0x10) || (mark, m) == (0xF0, 0x08)
    requires k < m
    ensures Low(mark + k, m) == k
  {
  }

  lemma TwoBytesDecode(c: char)
    requires 0x80 <= c as int < 0x800
    ensures DecodeUnit(EncodeChar(c)) == Some(c)
  {
    var n := c as int;
    SixBitGroups(n);
    LowOfLead(0xC0, n / 0x40, 0x20);
    LowOfContinuation(n % 0x40);
  }

  lemma ThreeBytesDecode(c: char)
    requires 0x800 <= c as int < 0x1_0000
    ensures DecodeUnit(EncodeChar(c)) == Some(c)
  {
    var n := c as int;
    SixBitGroups(n);
    LowOfLead(0xE0, n / 0x1000, 0x10);
    LowOfContinuation(n / 0x40 % 0x40);
    LowOfContinuation(n % 0x40);
  }

  lemma FourBytesDecode(c: char)
    requires 0x1_0000 <= c as int
    ensures DecodeUnit(EncodeChar(c)) == Some(c)
  {
    var n := c as int;
    SixBitGroups(n);
    LowOfLead(0xF0, n / 0x4_0000, 0x08);
    LowOfContinuation(n / 0x1000 % 0x40);
    LowOfContinuation(n / 0x40 % 0x40);
    LowOfContinuation(n % 0x40);
  }

  lemma EncodeCharDecodes(c: char)
    ensures SequenceLength(EncodeChar(c)[0]) == |EncodeChar(c)|
    ensures DecodeUnit(EncodeChar(c)) == Some(c)
  {
    var n := c as int;
    if n < 0x80 {
    } else if n < 0x800 {
      TwoBytesDecode(c);
    } else if n < 0x1_0000 {
      ThreeBytesDecode(c);
    } else {
      FourBytesDecode(c);
    }
  }

  /** Decoding the UTF-8 encoding of a string gives the string back, so
      two strings with the same encoding are equal. */
  lemma {:induction false} Utf8RoundTrip(s: string)
    ensures Utf8Decode(Utf8Encode(s)) == Some(s)
  {
    if s != [] {
      var head := EncodeChar(s[0]);
      var bs := Utf8Encode(s);
      EncodeCharDecodes(s[0]);
      assert bs[0] == head[0];
      assert bs[..|head|] == head;
      assert bs[|head|..] == Utf8Encode(s[1..]);
      Utf8RoundTrip(s[1..]);
      assert [s[0]] + s[1..] == s;
    }
  }

  // ---------------------------------------------------------------------
  // base64.b64encode: the alphabet of section 4 of RFC 4648, '=' padding

  function Symbol(i: nat): (c: char)
    requires i < 64
    ensures c != '='
  {
    if i < 26 then ('A' as int + i) as char
    else if i < 52 then ('a' as int + (i - 26)) as char
    else if i < 62 then ('0' as int + (i - 52)) as char
    else if i == 62 then '+'
    else '/'
  }

  /** The six-bit groups of three bytes. */
  function Group(x: Byte, y: Byte, z: Byte): (g: seq<nat>)
    ensures |g| == 4 && forall k :: 0 <= k < 4 ==> g[k] < 64
  {
    [x / 4, x % 4 * 16 + y / 16, y % 16 * 4 + z / 64, z % 64]
  }

  /** The six-bit groups of a byte string, the last group cut short as
      the padding rule asks (two or three groups for one or two bytes). */
  function Sextets(bs: seq<Byte>): (ns: seq<nat>)
    ensures forall k :: 0 <= k < |ns| ==> ns[k] < 64
    ensures bs == [] <==> ns == []
    ensures |bs| == 1 ==> |ns| == 2
    ensures |bs| == 2 ==> |ns| == 3
    ensures |bs| > 2 ==> |ns| >= 4
    decreases |bs|
  {
    if |bs| == 0 then []
    else if |bs| == 1 then Group(bs[0], 0, 0)[..2]
    else if |bs| == 2 then Group(bs[0], bs[1], 0)[..3]
    else Group(bs[0], bs[1], bs[2]) + Sextets(bs[3..])
  }

  function Symbols(ns: seq<nat>): (s: string)
    requires forall k :: 0 <= k < |ns| ==> ns[k] < 64
    ensures |s| == |ns| && '=' !in s
  {
    seq(|ns|, k requires 0 <= k < |ns| => Symbol(ns[k]))
  }

  /** `=` padding up to a multiple of four characters. */
  function Padding(bs: seq<Byte>): string {
    if |bs| % 3 == 1 then "==" else if |bs| % 3 == 2 then "=" else ""
  }

  function Base64Encode(bs: seq<Byte>): (s: string)
    ensures bs != [] ==> s != []
  {
    Symbols(Sextets(bs)) + Padding(bs)
  }

  lemma SymbolInjective(i: nat, j: nat)
    requires i < 64 && j < 64 && Symbol(i) == Symbol(j)
    ensures i == j
  {
  }

  lemma SymbolsInjective(ns: seq<nat>, ms: seq<nat>)
    requires forall k :: 0 <= k < |ns| ==> ns[k] < 64
    requires forall k :: 0 <= k < |ms| ==> ms[k] < 64
    requires Symbols(ns) == Symbols(ms)
    ensures ns == ms
  {
    forall k | 0 <= k < |ns|
      ensures ns[k] == ms[k]
    {
      assert Symbols(ns)[k] == Symbol(ns[k]) && Symbols(ms)[k] == Symbol(ms[k]);
      SymbolInjective(ns[k], ms[k]);
    }
  }

  lemma SplitBits(hi: nat, lo: nat, hi': nat, lo': nat, m: nat)
    requires (m == 4 || m == 16 || m == 64) && lo < m && lo' < m
    requires hi * m + lo == hi' * m + lo'
    ensures hi == hi' && lo == lo'
  {
  }

  /** The leading groups of two bytes determine the first byte, and the
      next groups the following ones. */
  lemma GroupInjective(x: Byte, y: Byte, z: Byte, x': Byte, y': Byte, z': Byte, n: nat)
    requires 2 <= n <= 4 && Group(x, y, z)[..n] == Group(x', y', z')[..n]
    ensures x == x'
    ensures n >= 3 ==> y == y'
    ensures n == 4 ==> z == z'
  {
    var g, g' := Group(x, y, z), Group(x', y', z');
    assert g[0] == g'[0] && g[1] == g'[1];
    SplitBits(x / 4, x % 4, x' / 4, x' % 4, 4);
    SplitBits(x % 4, y / 16, x' % 4, y' / 16, 16);
    if n >= 3 {
      assert g[2] == g'[2];
      SplitBits(y / 16, y % 16, y' / 16, y' % 16, 16);
      SplitBits(y % 16, z / 64, y' % 16, z' / 64, 4);
    }
    if n == 4 {
      assert g[3] == g'[3];
      SplitBits(z / 64, z % 64, z' / 64, z' % 64, 64);
    }
  }

  lemma {:induction false} SextetsInjective(bs: seq<Byte>, cs: seq<Byte>)
    requires Sextets(bs) == Sextets(cs)
    ensures bs == cs
    decreases |bs|
  {
    var ns := Sextets(bs);
    if |bs| == 1 {
      GroupInjective(bs[0], 0, 0, cs[0], 0, 0, 2);
      assert bs == [bs[0]] && cs == [cs[0]];
    } else if |bs| == 2 {
      GroupInjective(bs[0], bs[1], 0, cs[0], cs[1], 0, 3);
      assert bs == [bs[0], bs[1]] && cs == [cs[0], cs[1]];
    } else if |bs| > 2 {
      var g, g' := Group(bs[0], bs[1], bs[2]), Group(cs[0], cs[1], cs[2]);
      assert ns[..4] == g == g'[..4];
      GroupInjective(bs[0], bs[1], bs[2], cs[0], cs[1], cs[2], 4);
      assert Sextets(bs[3..]) == ns[4..] == Sextets(cs[3..]);
      SextetsInjective(bs[3..], cs[3..]);
      assert bs == bs[..3] + bs[3..] && cs == cs[..3] + cs[3..];
    }
  }

  /** The number of characters before the first `=`. */
  function UnpaddedLength(e: string): (n: nat)
    ensures n <= |e|
  {
    if e == [] || e[0] == '=' then 0 else 1 + UnpaddedLength(e[1..])
  }

  lemma {:induction false} UnpaddedLengthOf(s: string, pad: string)
    requires '=' !in s && (pad == [] || pad[0] == '=')
    ensures UnpaddedLength(s + pad) == |s|
  {
    if s != [] {
      assert (s + pad)[1..] == s[1..] + pad;
      UnpaddedLengthOf(s[1..], pad);
    }
  }

  /** Base64 encoding is one-to-one: the text determines the bytes. */
  lemma Base64Injective(bs: seq<Byte>, cs: seq<Byte>)
    requires Base64Encode(bs) == Base64Encode(cs)
    ensures bs == cs
  {
    var s, t := Symbols(Sextets(bs)), Symbols(Sextets(cs));
    var e := Base64Encode(bs);
    UnpaddedLengthOf(s, Padding(bs));
    UnpaddedLengthOf(t, Padding(cs));
    assert s == e[..|s|] == t;
    SymbolsInjective(Sextets(bs), Sextets(cs));
    SextetsInjective(bs, cs);
  }

  // ---------------------------------------------------------------------
  // The generated name

  /** `base64.b64encode((path + str(index)).encode()).decode()` */
  function RandomName(path: string, index: nat): string {
    Base64Encode(Utf8Encode(path + DecimalString(index)))
  }

  /** A generated name is never empty, and never the sentinel itself (its
      length is a multiple of four, the sentinel's is six). */
  lemma RandomNameShape(path: string, index: nat)
    ensures RandomName(path, index) != ""
    ensures RandomName(path, index) != "random"
  {
    var text := path + DecimalString(index);
    assert |Utf8Encode(text)| >= |text| > 0;
  }

  /** Two documents of the same file at different positions get different
      generated names. */
  lemma RandomNamesDistinct(path: string, i: nat, j: nat)
    requires i != j
    ensures RandomName(path, i) != RandomName(path, j)
  {
    var si, sj := path + DecimalString(i), path + DecimalString(j);
    if RandomName(path, i) == RandomName(path, j) {
      Base64Injective(Utf8Encode(si), Utf8Encode(sj));
      Utf8RoundTrip(si);
      Utf8RoundTrip(sj);
      assert si == sj;
      assert DecimalString(i) == si[|path|..] == sj[|path|..] == DecimalString(j);
      ParseDecimalString(i);
      ParseDecimalString(j);
      assert false;
    }
  }

  /** Generated names are only unique within one file: a path ending in a
      digit d at position d collides with the path without that digit at
      position 11 * d, so loading both files fails with a duplicate name. */
  lemma RandomNamesCollideAcrossFiles(path: string, d: nat)
    requires 1 <= d <= 9
    ensures RandomName(path + [Digit(d)], d) == RandomName(path, 11 * d)
  {
    assert DecimalString(11 * d) == DecimalString(d) + [Digit(d)];
    assert path + [Digit(d)] + DecimalString(d) == path + DecimalString(11 * d);
  }
}
