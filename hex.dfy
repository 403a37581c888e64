/**
 * Hexadecimal numerals: the seed derivation `int(hex_hash, 16)` of the
 * generator, and the lowercase `hexdigest()` rendering that turns a SHA-256
 * digest into an address.
 */
module Hex {
  import opened Results

  newtype byte = b: int | 0 <= b < 256

  /** The number of hexadecimal digits in an address (256 bits). */
  const ADDRESS_DIGITS: nat := 64

  /** 2^256, the size of the address space. */
  const ADDRESS_SPACE: nat := 0x1_0000_0000_0000_0000_0000_0000_0000_0000_0000_0000_0000_0000_0000_0000_0000_0000

  predicate IsHexDigit(c: char) {
    '0' <= c <= '9' || 'a' <= c <= 'f' || 'A' <= c <= 'F'
  }

  /** The digits `hexdigest()` emits: no upper-case letters. */
  predicate IsLowerHexDigit(c: char) {
    '0' <= c <= '9' || 'a' <= c <= 'f'
  }

  predicate AllHex(s: string) {
    forall i :: 0 <= i < |s| ==> IsHexDigit(s[i])
  }

  /**
   * The characters `int()` skips before and after a numeral: the ASCII
   * whitespace of C's `isspace` (tab, line feed, vertical tab, form feed,
   * carriage return, space), and every non-ASCII character Unicode counts as
   * whitespace, which `int()` first turns into a space. The ASCII separators
   * U+001C to U+001F, whitespace to `str.isspace`, are kept as they are and
   * so are not skipped.
   */
  predicate IsPySpace(c: char) {
    var n := c as int;
    0x09 <= n <= 0x0D || n == 0x20 || n == 0x85 || n == 0xA0 || n == 0x1680 ||
    0x2000 <= n <= 0x200A || n == 0x2028 || n == 0x2029 || n == 0x202F || n == 0x205F || n == 0x3000
  }

  /** Every character that can occur in a string `int(_, 16)` accepts. */
  predicate IsNumeralChar(c: char) {
    IsHexDigit(c) || IsPySpace(c) || c == '+' || c == '-' || c == 'x' || c == 'X' || c == '_'
  }

  predicate AllNumeralChars(s: string) {
    forall i :: 0 <= i < |s| ==> IsNumeralChar(s[i])
  }

  function DigitValue(c: char): (v: nat)
    requires IsHexDigit(c)
    ensures v < 16
  {
    if c <= '9' then c as int - '0' as int
    else if c <= 'F' then c as int - 'A' as int + 10
    else c as int - 'a' as int + 10
  }

  function Pow16(n: nat): (p: nat)
    ensures p > 0
  {
    if n == 0 then 1 else 16 * Pow16(n - 1)
  }

  /**
   * The value of a numeral, accumulated from the most significant digit:
   * each digit multiplies what came before by 16 and adds itself.
   */
  function HexValue(s: string): (v: nat)
    requires AllHex(s)
    ensures v < Pow16(|s|)
  {
    if s == [] then 0 else 16 * HexValue(s[..|s| - 1]) + DigitValue(s[|s| - 1])
  }

  /** `s` without its leading whitespace. */
  function TrimStart(s: string): (t: string)
    ensures |t| <= |s| && t == s[|s| - |t|..]
    ensures forall i :: 0 <= i < |s| - |t| ==> IsPySpace(s[i])
    ensures t != [] ==> !IsPySpace(t[0])
  {
    if s != [] && IsPySpace(s[0]) then TrimStart(s[1..]) else s
  }

  /** `s` without its trailing whitespace. */
  function TrimEnd(s: string): (t: string)
    ensures |t| <= |s| && t == s[..|t|]
    ensures forall i :: |t| <= i < |s| ==> IsPySpace(s[i])
    ensures t != [] ==> !IsPySpace(t[|t| - 1])
  {
    if s != [] && IsPySpace(s[|s| - 1]) then TrimEnd(s[..|s| - 1]) else s
  }

  /** `u` without a leading `0x` or `0X`, and the one underscore allowed after it. */
  function StripPrefix(u: string): string
  {
    if |u| >= 2 && u[0] == '0' && (u[1] == 'x' || u[1] == 'X') then
      if |u| >= 3 && u[2] == '_' then u[3..] else u[2..]
    else u
  }

  /**
   * Hexadecimal digits in groups, read from the right: a digit ends the
   * numeral, a single underscore may stand before it, and what lies before
   * that is read the same way. `None` for the empty string, a leading or
   * trailing underscore, two underscores together, or any other character.
   */
  function GroupedDigits(b: string): (r: Option<nat>)
    decreases |b|
  {
    if b == [] || !IsHexDigit(b[|b| - 1]) then None
    else if |b| == 1 then Some(DigitValue(b[0]))
    else
      var init := b[..|b| - 1];
      var rest := if init[|init| - 1] == '_' then init[..|init| - 1] else init;
      match GroupedDigits(rest)
      case None => None
      case Some(high) => Some(16 * high + DigitValue(b[|b| - 1]))
  }

  /** An unsigned numeral: an optional `0x`/`0X` prefix, then grouped digits. */
  function ReadUnsigned(u: string): Option<nat>
  {
    GroupedDigits(StripPrefix(u))
  }

  /** A numeral with an optional sign in front of it. */
  function ReadSigned(t: string): Option<int>
  {
    if |t| > 0 && (t[0] == '-' || t[0] == '+') then
      match ReadUnsigned(t[1..])
      case None => None
      case Some(magnitude) => Some(if t[0] == '-' then -(magnitude as int) else magnitude)
    else
      ReadUnsigned(t)
  }

  /**
   * `int(s, 16)` on a string: Python whitespace around it, then an optional
   * sign, an optional `0x`/`0X` prefix, and grouped hexadecimal digits of
   * either case. `None` is the `ValueError` raised for any other string,
   * the empty one included.
   */
  function IntBase16(s: string): (r: Option<int>)
    ensures r.Some? ==> |s| > 0
  {
    ReadSigned(TrimEnd(TrimStart(s)))
  }

  /** Digits without underscores are read as the plain numeral. */
  lemma {:induction false} GroupedDigitsOfHex(b: string)
    requires |b| > 0 && AllHex(b)
    ensures GroupedDigits(b) == Some(HexValue(b))
  {
    if |b| > 1 {
      var init := b[..|b| - 1];
      assert IsHexDigit(init[|init| - 1]);
      GroupedDigitsOfHex(init);
    }
  }

  /** Grouped digits are digits and underscores, and read a value below 16 to their length. */
  lemma {:induction false} GroupedDigitsFacts(b: string)
    requires GroupedDigits(b).Some?
    ensures GroupedDigits(b).value < Pow16(|b|)
    ensures forall i :: 0 <= i < |b| ==> IsHexDigit(b[i]) || b[i] == '_'
  {
    if |b| > 1 {
      var init := b[..|b| - 1];
      var rest := if init[|init| - 1] == '_' then init[..|init| - 1] else init;
      GroupedDigitsFacts(rest);
      Pow16Monotone(|rest|, |b| - 1);
      assert forall i :: 0 <= i < |rest| ==> b[i] == rest[i];
    }
  }

  /** The characters `StripPrefix` removes are numeral characters. */
  lemma StripPrefixChars(u: string)
    ensures |StripPrefix(u)| <= |u| && StripPrefix(u) == u[|u| - |StripPrefix(u)|..]
    ensures forall i :: 0 <= i < |u| - |StripPrefix(u)| ==> IsNumeralChar(u[i])
  {
  }

  /** An unsigned run of plain digits is read as itself. */
  lemma ReadUnsignedOfDigits(u: string)
    requires |u| > 0 && AllHex(u)
    ensures ReadUnsigned(u) == Some(HexValue(u))
  {
    assert StripPrefix(u) == u by {
      if |u| >= 2 {
        assert IsHexDigit(u[1]);
      }
    }
    GroupedDigitsOfHex(u);
  }

  /** With no whitespace at either end, `int(_, 16)` reads the sign and digits as they stand. */
  lemma IntBase16OfTrimmed(m: string)
    requires |m| > 0 && !IsPySpace(m[0]) && !IsPySpace(m[|m| - 1])
    ensures IntBase16(m) == ReadSigned(m)
  {
    assert TrimStart(m) == m;
  }

  /** A minus sign negates what the digits behind it read. */
  lemma ReadSignedNegative(t: string)
    requires |t| > 0 && t[0] == '-' && ReadUnsigned(t[1..]).Some?
    ensures ReadSigned(t) == Some(-(ReadUnsigned(t[1..]).value as int))
  {
  }

  /** A plain run of hexadecimal digits is read as itself. */
  lemma IntBase16OfDigits(s: string)
    ensures |s| > 0 && AllHex(s) ==> IntBase16(s) == Some(HexValue(s))
  {
    if |s| > 0 && AllHex(s) {
      IntBase16OfTrimmed(s);
      assert IsHexDigit(s[0]);
      ReadUnsignedOfDigits(s);
    }
  }

  /** A minus sign in front of a run of digits negates it. */
  lemma IntBase16OfNegated(m: string)
    requires |m| > 1 && m[0] == '-' && AllHex(m[1..])
    ensures IntBase16(m) == Some(-(HexValue(m[1..]) as int))
  {
    assert IsHexDigit(m[1..][|m| - 2]);
    IntBase16OfTrimmed(m);
    ReadUnsignedOfDigits(m[1..]);
    ReadSignedNegative(m);
  }

  /** What `ReadUnsigned` accepts is made of numeral characters and bounded by its length. */
  lemma ReadUnsignedFacts(u: string)
    requires ReadUnsigned(u).Some?
    ensures ReadUnsigned(u).value < Pow16(|u|) && AllNumeralChars(u)
  {
    var b := StripPrefix(u);
    StripPrefixChars(u);
    GroupedDigitsFacts(b);
    Pow16Monotone(|b|, |u|);
    assert forall i :: |u| - |b| <= i < |u| ==> u[i] == b[i - (|u| - |b|)];
  }

  /** Likewise with an optional sign. */
  lemma ReadSignedFacts(t: string)
    requires ReadSigned(t).Some?
    ensures -(Pow16(|t|) as int) < ReadSigned(t).value < Pow16(|t|) && AllNumeralChars(t)
  {
    if |t| > 0 && (t[0] == '-' || t[0] == '+') {
      ReadUnsignedFacts(t[1..]);
      Pow16Monotone(|t| - 1, |t|);
      assert forall i :: 1 <= i < |t| ==> t[i] == t[1..][i - 1];
    } else {
      ReadUnsignedFacts(t);
    }
  }

  /**
   * Only digits, whitespace, signs, `x`, `X` and underscores ever occur in a
   * string `int(_, 16)` accepts, and the magnitude it reads is below 16 to
   * the length of the string.
   */
  lemma IntBase16Facts(s: string)
    requires IntBase16(s).Some?
    ensures AllNumeralChars(s)
    ensures -(Pow16(|s|) as int) < IntBase16(s).value < Pow16(|s|)
  {
    var a := TrimStart(s);
    var t := TrimEnd(a);
    ReadSignedFacts(t);
    Pow16Monotone(|t|, |s|);
    TrimEndChars(a);
    TrimStartChars(s);
  }

  lemma TrimStartChars(s: string)
    requires AllNumeralChars(TrimStart(s))
    ensures AllNumeralChars(s)
  {
    var a := TrimStart(s);
    assert forall i :: |s| - |a| <= i < |s| ==> s[i] == a[i - (|s| - |a|)];
  }

  lemma TrimEndChars(s: string)
    requires AllNumeralChars(TrimEnd(s))
    ensures AllNumeralChars(s)
  {
    var t := TrimEnd(s);
    assert forall i :: 0 <= i < |t| ==> s[i] == t[i];
  }

  lemma {:induction false} Pow16Monotone(a: nat, b: nat)
    requires a <= b
    ensures Pow16(a) <= Pow16(b)
  {
    if a < b {
      Pow16Monotone(a, b - 1);
    }
  }

  /** Appending a digit to a numeral multiplies its value by 16 and adds the digit. */
  lemma HexValueSnoc(s: string, c: char)
    requires AllHex(s) && IsHexDigit(c)
    ensures AllHex(s + [c]) && HexValue(s + [c]) == 16 * HexValue(s) + DigitValue(c)
  {
    var t := s + [c];
    assert t[..|t| - 1] == s;
  }

  /** A leading zero digit does not change the value of a numeral. */
  lemma {:induction false} LeadingZero(s: string)
    requires AllHex(s)
    ensures AllHex("0" + s) && HexValue("0" + s) == HexValue(s)
  {
    if s == [] {
      assert "0" + s == [] + ['0'];
    } else {
      var init := s[..|s| - 1];
      LeadingZero(init);
      assert "0" + s == ("0" + init) + [s[|s| - 1]];
      HexValueSnoc("0" + init, s[|s| - 1]);
      assert s == init + [s[|s| - 1]];
      HexValueSnoc(init, s[|s| - 1]);
    }
  }

  /**
   * A numeral with a minus sign and the same digits behind a `0` are both
   * read, as a number and its negation.
   */
  lemma SignedReadsAsPadded(signed: string, padded: string)
    requires |signed| > 1 && |padded| == |signed| && AllHex(signed[1..])
    requires signed[0] == '-' && padded[0] == '0' && padded[1..] == signed[1..]
    ensures IntBase16(padded) == Some(HexValue(signed[1..]))
    ensures IntBase16(signed) == Some(-(HexValue(signed[1..]) as int))
  {
    IntBase16OfNegated(signed);
    IntBase16OfPadded(padded);
  }

  /** A `0` in front of a run of digits is read as the digits alone. */
  lemma IntBase16OfPadded(padded: string)
    requires |padded| > 1 && padded[0] == '0' && AllHex(padded[1..])
    ensures IntBase16(padded) == Some(HexValue(padded[1..]))
  {
    LeadingZeroAt(padded);
    IntBase16OfDigits(padded);
  }

  /** `LeadingZero` for a numeral given by its first character and the rest. */
  lemma LeadingZeroAt(padded: string)
    requires |padded| > 0 && padded[0] == '0' && AllHex(padded[1..])
    ensures AllHex(padded) && HexValue(padded) == HexValue(padded[1..])
  {
    assert padded == "0" + padded[1..];
    LeadingZero(padded[1..]);
  }

  /**
   * The information separators U+001C to U+001F are not skipped: `int()`
   * raises on a string that starts with one.
   */
  lemma SeparatorIsNotSkipped(s: string)
    requires |s| > 0 && 0x1C <= s[0] as int <= 0x1F
    ensures IntBase16(s).None?
  {
    if IntBase16(s).Some? {
      IntBase16Facts(s);
      assert false;
    }
  }

  /** An address of 64 hexadecimal digits is read as itself, a number in [0, 2^256). */
  lemma HexAddressSeed(s: string)
    requires |s| == ADDRESS_DIGITS && AllHex(s)
    ensures IntBase16(s) == Some(HexValue(s)) && HexValue(s) < ADDRESS_SPACE
  {
    IntBase16OfDigits(s);
    Pow16Of64();
  }

  /**
   * Whatever 64-character string `int(_, 16)` accepts, signed or prefixed,
   * the magnitude it reads is below 2^256.
   */
  lemma AddressSeedBound(s: string)
    requires |s| == ADDRESS_DIGITS && IntBase16(s).Some?
    ensures -(ADDRESS_SPACE as int) < IntBase16(s).value < ADDRESS_SPACE
  {
    IntBase16Facts(s);
    Pow16Of64();
  }

  lemma Pow16Of64()
    ensures Pow16(64) == ADDRESS_SPACE
  {
    assert Pow16(8) == 0x1_0000_0000;
    assert Pow16(16) == 0x1_0000_0000 * Pow16(8) by { Pow16Add(8, 8); }
    assert Pow16(32) == Pow16(16) * Pow16(16) by { Pow16Add(16, 16); }
    assert Pow16(64) == Pow16(32) * Pow16(32) by { Pow16Add(32, 32); }
  }

  lemma {:induction false} Pow16Add(a: nat, b: nat)
    ensures Pow16(a + b) == Pow16(a) * Pow16(b)
  {
    if b > 0 {
      Pow16Add(a, b - 1);
    }
  }

  /** A run of `n` zero digits. */
  function Zeros(n: nat): (z: string)
    ensures |z| == n && forall i :: 0 <= i < n ==> z[i] == '0'
  {
    seq(n, _ => '0')
  }

  /** The all-zero address ("0" * 64, or any shorter run) derives seed 0. */
  lemma {:induction false} ZerosParseToZero(n: nat)
    requires n > 0
    ensures IntBase16(Zeros(n)) == Some(0)
  {
    ZerosValueZero(n);
    IntBase16OfDigits(Zeros(n));
  }

  lemma {:induction false} ZerosValueZero(n: nat)
    ensures AllHex(Zeros(n)) && HexValue(Zeros(n)) == 0
  {
    if n > 0 {
      ZerosValueZero(n - 1);
      assert Zeros(n) == Zeros(n - 1) + ['0'];
      HexValueSnoc(Zeros(n - 1), '0');
    }
  }

  function LowerHexDigit(d: nat): (c: char)
    requires d < 16
    ensures IsLowerHexDigit(c) && IsHexDigit(c) && DigitValue(c) == d
  {
    if d < 10 then ('0' as int + d) as char else ('a' as int + d - 10) as char
  }

  /** The unsigned integer whose big-endian bytes are `b`. */
  function BigEndian(b: seq<byte>): nat
  {
    if b == [] then 0 else 256 * BigEndian(b[..|b| - 1]) + b[|b| - 1] as int
  }

  /**
   * `bytes.hexdigest()`: two lowercase hexadecimal digits per byte, the high
   * nibble first.
   */
  function HexDigest(b: seq<byte>): (h: string)
    ensures |h| == 2 * |b|
    ensures forall i :: 0 <= i < |h| ==> IsLowerHexDigit(h[i]) && IsHexDigit(h[i])
  {
    if b == [] then []
    else
      var last := b[|b| - 1] as int;
      HexDigest(b[..|b| - 1]) + [LowerHexDigit(last / 16), LowerHexDigit(last % 16)]
  }

  /** Reading a digest back with `int(_, 16)` gives the big-endian value of its bytes. */
  lemma HexDigestRoundTrip(b: seq<byte>)
    requires |b| > 0
    ensures IntBase16(HexDigest(b)) == Some(BigEndian(b))
  {
    HexDigestValue(b);
    IntBase16OfDigits(HexDigest(b));
  }

  lemma {:induction false} HexDigestValue(b: seq<byte>)
    ensures HexValue(HexDigest(b)) == BigEndian(b)
  {
    if b != [] {
      var init, last := b[..|b| - 1], b[|b| - 1] as int;
      var hi, lo := LowerHexDigit(last / 16), LowerHexDigit(last % 16);
      HexDigestValue(init);
      var prefix := HexDigest(init);
      assert HexDigest(b) == (prefix + [hi]) + [lo];
      HexValueSnoc(prefix, hi);
      HexValueSnoc(prefix + [hi], lo);
    }
  }
}
