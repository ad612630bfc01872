/** Byte strings and the two number renderings the service uses:
    `%d` for job identifiers and `%016X` for title identifiers, together with
    `strconv.ParseUint(s, 16, 64)`, which reads a title identifier back. */
module Text {
  import opened Wrappers

  /** A Go string is a sequence of bytes. */
  type Bytes = seq<bv8>

  const TwoTo64: nat := 0x1_0000_0000_0000_0000
  const TwoTo32: nat := 0x1_0000_0000

  /** The bytes of an ASCII literal (used to write concrete names). */
  function Ascii(s: string): (b: Bytes)
    ensures |b| == |s|
  {
    seq(|s|, i requires 0 <= i < |s| => (s[i] as int % 256) as bv8)
  }

  // ---- decimal (%d) ----

  predicate IsDigit(c: char) { '0' <= c <= '9' }

  function DigitChar(d: nat): (c: char)
    requires d < 10
    ensures IsDigit(c) && DigitValue(c) == d
  {
    ('0' as int + d) as char
  }

  function DigitValue(c: char): (d: nat)
    requires IsDigit(c)
    ensures d < 10
  {
    c as int - '0' as int
  }

  /** `fmt.Sprintf("%d", n)` for a non-negative n. */
  function Decimal(n: nat): (s: string)
    ensures 1 <= |s|
    ensures forall i | 0 <= i < |s| :: IsDigit(s[i])
  {
    if n < 10 then [DigitChar(n)] else Decimal(n / 10) + [DigitChar(n % 10)]
  }

  /** The number a string of decimal digits denotes. */
  function DecimalValue(s: string): nat
    requires forall i | 0 <= i < |s| :: IsDigit(s[i])
  {
    if s == [] then 0
    else DecimalValue(s[..|s| - 1]) * 10 + DigitValue(s[|s| - 1])
  }

  lemma {:induction false} DecimalRoundTrip(n: nat)
    ensures DecimalValue(Decimal(n)) == n
  {
    var s := Decimal(n);
    if n >= 10 {
      DecimalRoundTrip(n / 10);
      assert s[..|s| - 1] == Decimal(n / 10);
    }
  }

  /** Different numbers are rendered differently. */
  lemma DecimalInjective(a: nat, b: nat)
    requires Decimal(a) == Decimal(b)
    ensures a == b
  {
    DecimalRoundTrip(a);
    DecimalRoundTrip(b);
  }

  // ---- hexadecimal (%016X and ParseUint base 16) ----

  predicate IsHexDigit(c: char) {
    ('0' <= c <= '9') || ('a' <= c <= 'f') || ('A' <= c <= 'F')
  }

  function HexDigitValue(c: char): (d: nat)
    requires IsHexDigit(c)
    ensures d < 16
  {
    if '0' <= c <= '9' then c as int - '0' as int
    else if 'a' <= c <= 'f' then c as int - 'a' as int + 10
    else c as int - 'A' as int + 10
  }

  function HexChar(d: nat): (c: char)
    requires d < 16
    ensures IsHexDigit(c) && HexDigitValue(c) == d
  {
    if d < 10 then ('0' as int + d) as char else ('A' as int + d - 10) as char
  }

  predicate AllHex(s: string) {
    forall i | 0 <= i < |s| :: IsHexDigit(s[i])
  }

  /** The number a string of hexadecimal digits denotes. */
  function HexValue(s: string): nat
    requires AllHex(s)
  {
    if s == [] then 0
    else HexValue(s[..|s| - 1]) * 16 + HexDigitValue(s[|s| - 1])
  }

  function Pow16(k: nat): (p: nat)
    ensures p >= 1
  {
    if k == 0 then 1 else 16 * Pow16(k - 1)
  }

  /** The last `width` upper-case hexadecimal digits of v, zero-padded. */
  function HexDigits(v: nat, width: nat): (s: string)
    ensures |s| == width && AllHex(s)
  {
    if width == 0 then [] else HexDigits(v / 16, width - 1) + [HexChar(v % 16)]
  }

  /** An unsigned 64-bit integer (Go's `uint64`). */
  type Uint64 = x: nat | x < TwoTo64

  /** `fmt.Sprintf("%016X", x)`. */
  function FormatHex16(x: Uint64): (s: string)
    ensures |s| == 16 && AllHex(s)
  {
    HexDigits(x, 16)
  }

  /** `strconv.ParseUint(s, 16, 64)`: base 16 admits no sign, no `0x` prefix
      and no underscores; the empty string and values of 2^64 or more are errors. */
  function ParseUint16(s: string): Option<Uint64> {
    if s != [] && AllHex(s) && HexValue(s) < TwoTo64 then Some(HexValue(s)) else None
  }

  lemma {:induction false} HexDigitsValue(v: nat, width: nat)
    requires v < Pow16(width)
    ensures HexValue(HexDigits(v, width)) == v
  {
    if width > 0 {
      var s := HexDigits(v, width);
      HexDigitsValue(v / 16, width - 1);
      assert s[..|s| - 1] == HexDigits(v / 16, width - 1);
    }
  }

  lemma Pow16Of16()
    ensures Pow16(16) == TwoTo64
  {
    assert Pow16(4) == 0x1_0000;
    assert Pow16(8) == 0x1_0000_0000 by {
      assert Pow16(8) == 16 * 16 * 16 * 16 * Pow16(4);
    }
    assert Pow16(12) == 0x1_0000_0000_0000 by {
      assert Pow16(12) == 16 * 16 * 16 * 16 * Pow16(8);
    }
    assert Pow16(16) == 16 * 16 * 16 * 16 * Pow16(12);
  }

  lemma {:induction false} HexValueLeadingZero(s: string)
    requires AllHex(s)
    ensures AllHex("0" + s) && HexValue("0" + s) == HexValue(s)
  {
    if s != [] {
      var t := "0" + s;
      assert t[..|t| - 1] == "0" + s[..|s| - 1];
      HexValueLeadingZero(s[..|s| - 1]);
    }
  }

  /** A leading zero digit changes nothing: "0A" and "A" denote the same title. */
  lemma ParseIgnoresLeadingZero(s: string)
    requires s != []
    ensures ParseUint16("0" + s) == ParseUint16(s)
  {
    if AllHex(s) {
      HexValueLeadingZero(s);
    } else {
      var i :| 0 <= i < |s| && !IsHexDigit(s[i]);
      assert ("0" + s)[i + 1] == s[i];
    }
  }

  /** A digit string whose first digit is not zero denotes at least
      16^(length - 1). */
  lemma {:induction false} HexValueAtLeast(s: string)
    requires AllHex(s) && s != [] && HexDigitValue(s[0]) > 0
    ensures HexValue(s) >= Pow16(|s| - 1)
  {
    if |s| > 1 {
      HexValueAtLeast(s[..|s| - 1]);
    }
  }

  /** More than sixteen significant digits are out of range for a `uint64`. */
  lemma ParseRejectsSeventeenDigits(s: string)
    requires |s| == 17 && AllHex(s) && s[0] != '0'
    ensures ParseUint16(s) == None
  {
    HexValueAtLeast(s);
    Pow16Of16();
  }

  /** A title identifier printed with `%016X` parses back to itself. */
  lemma FormatParseRoundTrip(x: Uint64)
    ensures ParseUint16(FormatHex16(x)) == Some(x)
  {
    Pow16Of16();
    HexDigitsValue(x, 16);
  }
}
