/** The text encodings the server relies on: decimal numbers, hexadecimal digests, and unpadded base64url
    (RFC 4648, sections 3.2 and 5).  Each decoder undoes its encoder. */
module Encoding {
  import opened Types

  // ----- decimal: strconv.Itoa and strconv.Atoi -----

  function Digit(d: int): char
    requires 0 <= d < 10
  {
    '0' + d as char
  }

  predicate IsDigit(c: char)
  {
    '0' <= c <= '9'
  }

  function Itoa(n: nat): (s: string)
    ensures s != ""
  {
    if n < 10 then [Digit(n)] else Itoa(n / 10) + [Digit(n % 10)]
  }

  predicate AllDigits(s: string)
  {
    forall i :: 0 <= i < |s| ==> IsDigit(s[i])
  }

  function DigitsValue(s: string): nat
    requires AllDigits(s)
  {
    if s == "" then 0 else 10 * DigitsValue(s[..|s| - 1]) + (s[|s| - 1] as int - '0' as int)
  }

  lemma {:induction false} ItoaIsRead(n: nat)
    ensures AllDigits(Itoa(n)) && DigitsValue(Itoa(n)) == n
  {
    if n >= 10 {
      ItoaIsRead(n / 10);
      assert Itoa(n)[..|Itoa(n)| - 1] == Itoa(n / 10);
    } else {
      assert [Digit(n)][..0] == "";
    }
  }

  /** Decimal digits, the highest one first and no leading zero. */
  lemma ItoaSpells(n: nat, d: nat)
    requires d < 10
    ensures Itoa(d) == ["0123456789"[d]]
    ensures n > 0 ==> Itoa(10 * n + d) == Itoa(n) + ["0123456789"[d]]
  {
  }

  lemma ItoaInjective(m: nat, n: nat)
    requires Itoa(m) == Itoa(n)
    ensures m == n
  {
    ItoaIsRead(m);
    ItoaIsRead(n);
  }

  const MIN_INT := -0x8000_0000_0000_0000
  const MAX_INT := 0x7FFF_FFFF_FFFF_FFFF

  /** `None` stands for either of Atoi's errors, syntax and range. */
  function Atoi(s: string): Option<int>
  {
    var signed := s != "" && (s[0] == '-' || s[0] == '+');
    var digits := if signed then s[1..] else s;
    if digits == "" || !AllDigits(digits) then None
    else
      var sign := if signed && s[0] == '-' then -1 else 1;
      var v := sign * DigitsValue(digits);
      if MIN_INT <= v <= MAX_INT then Some(v) else None
  }

  /** A number is read with its sign, if it fits in 64 bits. */
  lemma AtoiReads(digits: string)
    requires digits != "" && AllDigits(digits)
    ensures Atoi(digits) == if DigitsValue(digits) <= MAX_INT then Some(DigitsValue(digits)) else None
    ensures Atoi(['+'] + digits) == Atoi(digits)
    ensures Atoi(['-'] + digits) == if DigitsValue(digits) <= -MIN_INT then Some(0 - DigitsValue(digits)) else None
  {
    assert IsDigit(digits[0]);
    assert (['+'] + digits)[1..] == digits && (['-'] + digits)[1..] == digits;
  }

  // ----- hexadecimal: encoding/hex and the `%x` verb -----

  function HexDigit(d: int): char
    requires 0 <= d < 16
  {
    if d < 10 then '0' + d as char else 'a' + (d - 10) as char
  }

  function HexValue(c: char): Option<int>
  {
    if '0' <= c <= '9' then Some(c as int - '0' as int)
    else if 'a' <= c <= 'f' then Some(c as int - 'a' as int + 10)
    else if 'A' <= c <= 'F' then Some(c as int - 'A' as int + 10)
    else None
  }

  function Hex(bytes: Bytes): (s: string)
    ensures |s| == 2 * |bytes|
  {
    if bytes == [] then ""
    else
      var b := bytes[0] as int;
      [HexDigit(b / 16), HexDigit(b % 16)] + Hex(bytes[1..])
  }

  function HexDecode(s: string): Option<Bytes>
  {
    if s == "" then Some([])
    else if |s| == 1 then None
    else
      match (HexValue(s[0]), HexValue(s[1]), HexDecode(s[2..]))
      case (Some(hi), Some(lo), Some(rest)) => Some([(16 * hi + lo) as byte] + rest)
      case _ => None
  }

  predicate IsHexDigit(c: char)
  {
    '0' <= c <= '9' || 'a' <= c <= 'f'
  }

  lemma {:induction false} HexRoundTrip(bytes: Bytes)
    ensures HexDecode(Hex(bytes)) == Some(bytes)
    ensures forall i :: 0 <= i < |Hex(bytes)| ==> IsHexDigit(Hex(bytes)[i])
  {
    if bytes != [] {
      HexRoundTrip(bytes[1..]);
      assert Hex(bytes)[2..] == Hex(bytes[1..]);
      assert bytes == [bytes[0]] + bytes[1..];
    }
  }

  /** Two lower-case digits for every byte, the higher one first. */
  predicate SpellsHex(s: string, bytes: Bytes)
  {
    |s| == 2 * |bytes| && forall i :: 0 <= i < |bytes| ==> SpellsByte(s[2 * i], s[2 * i + 1], bytes[i])
  }

  predicate SpellsByte(high: char, low: char, b: byte)
  {
    high == "0123456789abcdef"[b as int / 16] && low == "0123456789abcdef"[b as int % 16]
  }

  lemma DigitsSpell(b: byte, high: char, low: char)
    ensures SpellsByte(high, low, b) <==> high == HexDigit(b as int / 16) && low == HexDigit(b as int % 16)
  {
    DigitIsListed(b as int / 16);
    DigitIsListed(b as int % 16);
  }

  lemma DigitIsListed(d: int)
    requires 0 <= d < 16
    ensures HexDigit(d) == "0123456789abcdef"[d]
  {
  }

  /** Hexadecimal has these digits and no others. */
  lemma {:induction false} HexSpells(bytes: Bytes, s: string)
    ensures SpellsHex(s, bytes) <==> s == Hex(bytes)
  {
    if bytes != [] {
      var digits := Hex(bytes);
      DigitsSpell(bytes[0], digits[0], digits[1]);
      HexSpells(bytes[1..], digits[2..]);
      SpellsFirst(bytes, digits);
      if |s| == |digits| {
        DigitsSpell(bytes[0], s[0], s[1]);
        HexSpells(bytes[1..], s[2..]);
        SpellsFirst(bytes, s);
        assert s == [s[0], s[1]] + s[2..];
      }
    }
  }

  lemma SpellsFirst(bytes: Bytes, s: string)
    requires bytes != [] && |s| == 2 * |bytes|
    ensures SpellsHex(s, bytes) <==> SpellsByte(s[0], s[1], bytes[0]) && SpellsHex(s[2..], bytes[1..])
  {
    var rest, tail := bytes[1..], s[2..];
    assert forall i :: 0 <= i < |rest| ==>
        rest[i] == bytes[i + 1] && tail[2 * i] == s[2 * (i + 1)] && tail[2 * i + 1] == s[2 * (i + 1) + 1];
    if SpellsByte(s[0], s[1], bytes[0]) && SpellsHex(tail, rest) {
      forall i | 0 <= i < |bytes|
        ensures SpellsByte(s[2 * i], s[2 * i + 1], bytes[i])
      {
        if i > 0 {
          assert SpellsByte(tail[2 * (i - 1)], tail[2 * (i - 1) + 1], rest[i - 1]);
        }
      }
    }
    if SpellsHex(s, bytes) {
      assert SpellsByte(s[2 * 0], s[2 * 0 + 1], bytes[0]);
      forall i | 0 <= i < |rest|
        ensures SpellsByte(tail[2 * i], tail[2 * i + 1], rest[i])
      {
        assert SpellsByte(s[2 * (i + 1)], s[2 * (i + 1) + 1], bytes[i + 1]);
      }
    }
  }

  lemma HexInjective(a: Bytes, b: Bytes)
    requires Hex(a) == Hex(b)
    ensures a == b
  {
    HexRoundTrip(a);
    HexRoundTrip(b);
  }

  // ----- base64.RawURLEncoding -----

  /** A Go string: every character is one byte. */
  predicate IsByteString(s: string)
  {
    forall i :: 0 <= i < |s| ==> s[i] as int < 256
  }

  function Sextet(v: int): (c: char)
    requires 0 <= v < 64
    ensures SextetValue(c) == Some(v)
    ensures c != '\n' && c != '\r'
  {
    if v < 26 then 'A' + v as char
    else if v < 52 then 'a' + (v - 26) as char
    else if v < 62 then '0' + (v - 52) as char
    else if v == 62 then '-' else '_'
  }

  function SextetValue(c: char): (v: Option<int>)
    ensures v.Some? ==> 0 <= v.value < 64
  {
    if 'A' <= c <= 'Z' then Some(c as int - 'A' as int)
    else if 'a' <= c <= 'z' then Some(c as int - 'a' as int + 26)
    else if '0' <= c <= '9' then Some(c as int - '0' as int + 52)
    else if c == '-' then Some(62)
    else if c == '_' then Some(63)
    else None
  }

  function Base64Url(s: string): string
    requires IsByteString(s)
  {
    if s == "" then ""
    else
      var b0 := s[0] as int;
      if |s| == 1 then [Sextet(b0 / 4), Sextet(b0 % 4 * 16)]
      else
        var b1 := s[1] as int;
        if |s| == 2 then [Sextet(b0 / 4), Sextet(b0 % 4 * 16 + b1 / 16), Sextet(b1 % 16 * 4)]
        else
          var b2 := s[2] as int;
          [Sextet(b0 / 4), Sextet(b0 % 4 * 16 + b1 / 16), Sextet(b1 % 16 * 4 + b2 / 64),
            Sextet(b2 % 64)] + Base64Url(s[3..])
  }

  /** Go's decoder skips line breaks wherever they stand. */
  function SkipLineBreaks(t: string): string
  {
    if t == "" then ""
    else if t[0] == '\n' || t[0] == '\r' then SkipLineBreaks(t[1..])
    else [t[0]] + SkipLineBreaks(t[1..])
  }

  /** Four characters make three bytes; a last group of two or three drops its spare bits; one alone is an error. */
  function DecodeQuanta(t: string): Option<string>
  {
    if t == "" then Some("")
    else if |t| == 1 || SextetValue(t[0]).None? || SextetValue(t[1]).None? then None
    else
      var v0, v1 := SextetValue(t[0]).value, SextetValue(t[1]).value;
      var c0 := (v0 * 4 + v1 / 16) as char;
      if |t| == 2 then Some([c0])
      else if SextetValue(t[2]).None? then None
      else
        var v2 := SextetValue(t[2]).value;
        var c1 := (v1 % 16 * 16 + v2 / 4) as char;
        if |t| == 3 then Some([c0, c1])
        else if SextetValue(t[3]).None? then None
        else
          var c2 := (v2 % 4 * 64 + SextetValue(t[3]).value) as char;
          var rest := DecodeQuanta(t[4..]);
          if rest.Some? then Some([c0, c1, c2] + rest.value) else None
  }

  function Base64UrlDecode(t: string): Option<string>
  {
    DecodeQuanta(SkipLineBreaks(t))
  }

  /** A line break anywhere makes no difference. */
  lemma {:induction false} LineBreaksAreSkipped(a: string, c: char, b: string)
    requires c == '\n' || c == '\r'
    ensures SkipLineBreaks(a + [c] + b) == SkipLineBreaks(a + b)
    ensures Base64UrlDecode(a + [c] + b) == Base64UrlDecode(a + b)
  {
    if a == "" {
      assert a + [c] + b == [c] + b && a + b == b;
    } else {
      LineBreaksAreSkipped(a[1..], c, b);
      assert (a + [c] + b)[1..] == a[1..] + [c] + b && (a + b)[1..] == a[1..] + b;
    }
  }

  lemma {:induction false} NothingToSkip(t: string)
    requires forall i :: 0 <= i < |t| ==> t[i] != '\n' && t[i] != '\r'
    ensures SkipLineBreaks(t) == t
  {
    if t != "" {
      NothingToSkip(t[1..]);
      assert t == [t[0]] + t[1..];
    }
  }

  lemma {:induction false} NoLineBreaks(s: string)
    requires IsByteString(s)
    ensures forall i :: 0 <= i < |Base64Url(s)| ==> Base64Url(s)[i] != '\n' && Base64Url(s)[i] != '\r'
  {
    if |s| >= 3 {
      NoLineBreaks(s[3..]);
    }
  }

  /** Splitting bytes into sextets and joining them again. */
  lemma Rejoin(b0: int, b1: int, b2: int)
    requires 0 <= b0 < 256 && 0 <= b1 < 256 && 0 <= b2 < 256
    ensures var v0, v1, v2, v3 := b0 / 4, b0 % 4 * 16 + b1 / 16, b1 % 16 * 4 + b2 / 64, b2 % 64;
            v0 * 4 + v1 / 16 == b0 && v1 % 16 * 16 + v2 / 4 == b1 && v2 % 4 * 64 + v3 == b2
  {
  }

  /** Sextets that join to the bytes of `s` decode to `s`. */
  lemma DecodesOne(s: string, v0: int, v1: int)
    requires |s| == 1 && 0 <= v0 < 64 && 0 <= v1 < 64 && v0 * 4 + v1 / 16 == s[0] as int
    ensures DecodeQuanta([Sextet(v0), Sextet(v1)]) == Some(s)
  {
    var t := [Sextet(v0), Sextet(v1)];
    assert SextetValue(t[0]) == Some(v0) && SextetValue(t[1]) == Some(v1);
    assert s == [s[0]];
  }

  lemma DecodesTwo(s: string, v0: int, v1: int, v2: int)
    requires |s| == 2 && 0 <= v0 < 64 && 0 <= v1 < 64 && 0 <= v2 < 64
    requires v0 * 4 + v1 / 16 == s[0] as int && v1 % 16 * 16 + v2 / 4 == s[1] as int
    ensures DecodeQuanta([Sextet(v0), Sextet(v1), Sextet(v2)]) == Some(s)
  {
    var t := [Sextet(v0), Sextet(v1), Sextet(v2)];
    assert SextetValue(t[0]) == Some(v0) && SextetValue(t[1]) == Some(v1) && SextetValue(t[2]) == Some(v2);
    assert s == [s[0], s[1]];
  }

  lemma DecodesThree(s: string, v0: int, v1: int, v2: int, v3: int, rest: string)
    requires |s| >= 3 && 0 <= v0 < 64 && 0 <= v1 < 64 && 0 <= v2 < 64 && 0 <= v3 < 64
    requires v0 * 4 + v1 / 16 == s[0] as int && v1 % 16 * 16 + v2 / 4 == s[1] as int && v2 % 4 * 64 + v3 == s[2] as int
    requires DecodeQuanta(rest) == Some(s[3..])
    ensures DecodeQuanta([Sextet(v0), Sextet(v1), Sextet(v2), Sextet(v3)] + rest) == Some(s)
  {
    var t := [Sextet(v0), Sextet(v1), Sextet(v2), Sextet(v3)] + rest;
    assert SextetValue(t[0]) == Some(v0) && SextetValue(t[1]) == Some(v1);
    assert SextetValue(t[2]) == Some(v2) && SextetValue(t[3]) == Some(v3);
    assert t[4..] == rest;
    assert s == [s[0], s[1], s[2]] + s[3..];
  }

  lemma ShortRoundTrip(s: string)
    requires IsByteString(s) && 1 <= |s| <= 2
    ensures DecodeQuanta(Base64Url(s)) == Some(s)
  {
    var b0 := s[0] as int;
    var b1 := if |s| > 1 then s[1] as int else 0;
    Rejoin(b0, b1, 0);
    if |s| == 1 {
      DecodesOne(s, b0 / 4, b0 % 4 * 16);
    } else {
      DecodesTwo(s, b0 / 4, b0 % 4 * 16 + b1 / 16, b1 % 16 * 4);
    }
  }

  lemma FourSextets(s: string) returns (v0: int, v1: int, v2: int, v3: int)
    requires IsByteString(s) && |s| >= 3 && IsByteString(s[3..])
    ensures 0 <= v0 < 64 && 0 <= v1 < 64 && 0 <= v2 < 64 && 0 <= v3 < 64
    ensures v0 * 4 + v1 / 16 == s[0] as int && v1 % 16 * 16 + v2 / 4 == s[1] as int && v2 % 4 * 64 + v3 == s[2] as int
    ensures Base64Url(s) == [Sextet(v0), Sextet(v1), Sextet(v2), Sextet(v3)] + Base64Url(s[3..])
  {
    var b0, b1, b2 := s[0] as int, s[1] as int, s[2] as int;
    Rejoin(b0, b1, b2);
    v0, v1, v2, v3 := b0 / 4, b0 % 4 * 16 + b1 / 16, b1 % 16 * 4 + b2 / 64, b2 % 64;
  }

  lemma LongRoundTrip(s: string)
    requires IsByteString(s) && |s| >= 3 && IsByteString(s[3..]) && DecodeQuanta(Base64Url(s[3..])) == Some(s[3..])
    ensures DecodeQuanta(Base64Url(s)) == Some(s)
  {
    var v0, v1, v2, v3 := FourSextets(s);
    DecodesThree(s, v0, v1, v2, v3, Base64Url(s[3..]));
  }

  lemma {:induction false} QuantaRoundTrip(s: string)
    requires IsByteString(s)
    ensures DecodeQuanta(Base64Url(s)) == Some(s)
  {
    if |s| >= 3 {
      QuantaRoundTrip(s[3..]);
      LongRoundTrip(s);
    } else if s != "" {
      ShortRoundTrip(s);
    }
  }

  /** Every byte string is recovered from its token. */
  lemma Base64UrlRoundTrip(s: string)
    requires IsByteString(s)
    ensures Base64UrlDecode(Base64Url(s)) == Some(s)
    ensures s != "" ==> Base64Url(s) != ""
  {
    NoLineBreaks(s);
    NothingToSkip(Base64Url(s));
    QuantaRoundTrip(s);
  }

  lemma {:induction false} UndecodableTokens(t: string)
    ensures DecodeQuanta(t).None? <==> |t| % 4 == 1 || exists i :: 0 <= i < |t| && SextetValue(t[i]).None?
  {
    if |t| >= 4 {
      UndecodableTokens(t[4..]);
      assert forall i :: 4 <= i < |t| ==> t[i] == t[4..][i - 4];
      assert |t| % 4 == |t[4..]| % 4;
    }
  }

  /** The alphabet of base64url, in its order. */
  predicate SpellsSextet(c: char, v: int)
  {
    if 0 <= v < 26 then c == "ABCDEFGHIJKLMNOPQRSTUVWXYZ"[v]
    else if 26 <= v < 52 then c == "abcdefghijklmnopqrstuvwxyz"[v - 26]
    else if 52 <= v < 62 then c == "0123456789"[v - 52]
    else c == (if v == 62 then '-' else '_') && 62 <= v < 64
  }

  lemma SextetSpells(v: int)
    requires 0 <= v < 64
    ensures SpellsSextet(Sextet(v), v)
  {
    if v < 26 {
      CapitalSpells(v);
    } else if v < 52 {
      LetterSpells(v - 26);
    }
  }

  lemma CapitalSpells(v: int)
    requires 0 <= v < 26
    ensures "ABCDEFGHIJKLMNOPQRSTUVWXYZ"[v] == 'A' + v as char
  {
  }

  lemma LetterSpells(v: int)
    requires 0 <= v < 26
    ensures "abcdefghijklmnopqrstuvwxyz"[v] == 'a' + v as char
  {
  }

  /** Three bytes, as one number of 24 bits, become four digits of 6 bits, the highest first. */
  lemma Base64UrlSpells(s: string) returns (v0: int, v1: int, v2: int, v3: int)
    requires IsByteString(s) && |s| >= 3
    ensures var t := Base64Url(s);
            && |t| >= 4 && t[4..] == Base64Url(s[3..])
            && SpellsSextet(t[0], v0) && SpellsSextet(t[1], v1) && SpellsSextet(t[2], v2) && SpellsSextet(t[3], v3)
    ensures v0 * 262144 + v1 * 4096 + v2 * 64 + v3 == s[0] as int * 65536 + s[1] as int * 256 + s[2] as int
  {
    v0, v1, v2, v3 := FourSextets(s);
    SextetSpells(v0);
    SextetSpells(v1);
    SextetSpells(v2);
    SextetSpells(v3);
    Weigh(v1, 16);
    Weigh(v2, 4);
  }

  lemma Weigh(v: int, d: int)
    requires d > 0
    ensures v == d * (v / d) + v % d
  {
  }

  /** One or two bytes at the end are filled up with zero bits to two or three digits. */
  lemma Base64UrlEnds(s: string) returns (v0: int, v1: int, v2: int)
    requires IsByteString(s) && 1 <= |s| <= 2
    ensures var t := Base64Url(s);
            && |t| == |s| + 1 && SpellsSextet(t[0], v0) && SpellsSextet(t[1], v1)
            && (|s| == 1 ==> v0 * 64 + v1 == s[0] as int * 16)
            && (|s| == 2 ==> SpellsSextet(t[2], v2)
                             && v0 * 4096 + v1 * 64 + v2 == (s[0] as int * 256 + s[1] as int) * 4)
  {
    var b0 := s[0] as int;
    var b1 := if |s| > 1 then s[1] as int else 0;
    v0, v1, v2 := b0 / 4, b0 % 4 * 16 + b1 / 16, b1 % 16 * 4;
    Weigh(b0, 4);
    Weigh(b1, 16);
    SextetSpells(v0);
    SextetSpells(v1);
    SextetSpells(v2);
  }
}
