/** The two human-readable renderings shared by the service and the command
    line tool (`formatBytes` and `formatDuration`; both programs carry
    identical copies). The `%.1f` of a byte count is floating point and is
    not rendered here: `FormatBytes` returns the divisor and unit prefix the
    source prints with. */
module Format {
  import opened Text

  const TwoTo63: int := 0x8000_0000_0000_0000

  /** A Go `int64`. */
  type Int64 = x: int | -TwoTo63 <= x < TwoTo63

  function Pow1024(k: nat): (p: nat)
    ensures p >= 1
  {
    if k == 0 then 1 else 1024 * Pow1024(k - 1)
  }

  /** The unit prefixes, indexed by the number of extra divisions. */
  const Prefixes: string := "KMGTPE"

  /** What `formatBytes` prints: `%d B`, or `bytes/div` with one decimal
      and the unit `<prefix>B`. */
  datatype ByteSize = Plain(count: int) | Scaled(bytes: int, div: nat, exp: nat, prefix: char)

  lemma Pow1024Six()
    ensures Pow1024(6) == 0x1000_0000_0000_0000
  {
    assert Pow1024(1) == 0x400;
    assert Pow1024(2) == 0x10_0000;
    assert Pow1024(3) == 0x4000_0000;
    assert Pow1024(4) == 0x100_0000_0000;
    assert Pow1024(5) == 0x4_0000_0000_0000;
  }

  /** Division is determined by quotient and remainder. */
  lemma DivUnique(a: nat, d: nat, q: nat, r: nat)
    requires d > 0 && a == d * q + r && r < d
    ensures a / d == q
  {
    var q' := a / d;
    var r' := a % d;
    assert a == d * q' + r';
    if q > q' {
      MulStep(d, q', q);
      assert false;
    } else if q < q' {
      MulStep(d, q, q');
      assert false;
    }
  }

  /** A larger factor adds at least one more multiple. */
  lemma {:induction false} MulStep(d: nat, x: nat, y: nat)
    requires x < y
    ensures d * x + d <= d * y
  {
    assert d * y == d * (y - 1) + d;
    if x < y - 1 {
      MulStep(d, x, y - 1);
    }
  }

  lemma Distribute(b: nat, c: nat, q: nat, r: nat)
    ensures b * (c * q + r) == (b * c) * q + b * r
  {
  }

  /** Dividing twice is dividing by the product. */
  lemma DivDiv(a: nat, b: nat, c: nat)
    requires b > 0 && c > 0
    ensures a / b / c == a / (b * c)
  {
    DivDivParts(a, b, c, a / b, a % b, a / b / c, a / b % c);
  }

  lemma DivDivParts(a: nat, b: nat, c: nat, q1: nat, r1: nat, q2: nat, r2: nat)
    requires b > 0 && c > 0
    requires a == b * q1 + r1 && r1 < b && q1 == c * q2 + r2 && r2 < c
    ensures a / (b * c) == q2
  {
    Distribute(b, c, q2, r2);
    MulStep(b, r2, c);
    DivUnique(a, b * c, q2, b * r2 + r1);
  }

  /** `formatBytes`. Counts below 1024 (negative ones too) are printed
      as they are; otherwise the divisor is the largest power of 1024 not
      above the count, so the printed number lies in [1, 1024), and the
      prefix never runs past "E". */
  method FormatBytes(bytes: Int64) returns (r: ByteSize)
    ensures r.Plain? <==> bytes < 1024
    ensures r.Plain? ==> r.count == bytes
    ensures r.Scaled? ==>
      && r.bytes == bytes && r.exp < |Prefixes| && r.prefix == Prefixes[r.exp]
      && r.div == Pow1024(r.exp + 1) && r.div <= bytes < r.div * 1024
  {
    if bytes < 1024 {
      return Plain(bytes);
    }
    var div: nat := 1024;
    var exp: nat := 0;
    var n: nat := bytes / 1024;
    while n >= 1024
      invariant div == Pow1024(exp + 1) && exp <= 5
      invariant 1 <= n && n == bytes / div
      decreases n
    {
      ScaleStep(bytes, div, exp, n);
      div := div * 1024;
      exp := exp + 1;
      n := n / 1024;
    }
    ScaleDone(bytes, div, n);
    return Scaled(bytes, div, exp, Prefixes[exp]);
  }

  /** One more division by 1024 keeps the loop's invariant, and cannot
      happen at "E": 1024^6 = 2^60 leaves less than 8 of an `int64`. */
  lemma ScaleStep(bytes: nat, div: nat, exp: nat, n: nat)
    requires bytes < TwoTo63 && div == Pow1024(exp + 1) && exp <= 5
    requires n == bytes / div && n >= 1024
    ensures exp < 5 && div * 1024 == Pow1024(exp + 2)
    ensures n / 1024 == bytes / (div * 1024) && n / 1024 >= 1
  {
    DivBounds(bytes, div);
    if exp == 5 {
      Pow1024Six();
      assert div * n >= div * 1024 by {
        MulStep(div, 1023, n);
      }
      assert false;
    }
    DivDiv(bytes, div, 1024);
  }

  /** When the loop stops the count lies between the divisor and 1024 times it. */
  lemma ScaleDone(bytes: nat, div: nat, n: nat)
    requires div > 0 && n == bytes / div && 1 <= n < 1024
    ensures div <= bytes < div * 1024
  {
    DivBounds(bytes, div);
    MulStep(div, 0, n);
    MulStep(div, n, 1024);
  }

  lemma DivBounds(a: nat, d: nat)
    requires d > 0
    ensures d * (a / d) <= a < d * (a / d + 1)
  {
  }

  /** The scale is unique: only one power of 1024 brings a count into
      [1, 1024). */
  lemma {:induction false} ScaleUnique(bytes: nat, e1: nat, e2: nat)
    requires Pow1024(e1) <= bytes < Pow1024(e1) * 1024
    requires Pow1024(e2) <= bytes < Pow1024(e2) * 1024
    ensures e1 == e2
  {
    if e1 < e2 {
      Pow1024Monotone(e1 + 1, e2);
    } else if e2 < e1 {
      Pow1024Monotone(e2 + 1, e1);
    }
  }

  lemma {:induction false} Pow1024Monotone(a: nat, b: nat)
    requires a <= b
    ensures Pow1024(a) <= Pow1024(b)
  {
    if a < b {
      Pow1024Monotone(a, b - 1);
    }
  }

  /** What `formatDuration` prints: "unknown", `MM:SS`, or `HH:MM:SS` once
      there is at least one hour. */
  datatype Clock = Unknown | MinSec(m: nat, s: nat) | HourMinSec(h: nat, m: nat, s: nat)

  /** `formatDuration` of a whole number of seconds. Every caller passes
      `time.Duration(x) * time.Second`, a whole number of seconds, so the
      rounding to the second changes nothing. */
  function FormatDuration(secs: int): (c: Clock)
    ensures c == Unknown <==> secs < 0
    ensures c.MinSec? ==> secs < 3600 && c.m * 60 + c.s == secs && c.m < 60 && c.s < 60
    ensures c.HourMinSec? ==> secs >= 3600 && c.h >= 1 && c.h * 3600 + c.m * 60 + c.s == secs && c.m < 60 && c.s < 60
  {
    if secs < 0 then Unknown
    else
      var h := secs / 3600;
      var rest := secs - h * 3600;
      var m := rest / 60;
      var s := rest - m * 60;
      if h > 0 then HourMinSec(h, m, s) else MinSec(m, s)
  }

  /** The clock reading is unique: two readings in range that denote the
      same number of seconds are the same reading. */
  lemma ClockUnique(h1: nat, m1: nat, s1: nat, h2: nat, m2: nat, s2: nat)
    requires m1 < 60 && s1 < 60 && m2 < 60 && s2 < 60
    requires h1 * 3600 + m1 * 60 + s1 == h2 * 3600 + m2 * 60 + s2
    ensures h1 == h2 && m1 == m2 && s1 == s2
  {
    DivUnique(h1 * 3600 + m1 * 60 + s1, 3600, h1, m1 * 60 + s1);
    DivUnique(h2 * 3600 + m2 * 60 + s2, 3600, h2, m2 * 60 + s2);
    DivUnique(m1 * 60 + s1, 60, m1, s1);
    DivUnique(m2 * 60 + s2, 60, m2, s2);
  }

  /** `%02d`: the number's digits, zero-padded to two. */
  function Pad2(n: nat): (s: string)
    ensures |s| >= 2 && (n < 100 ==> |s| == 2)
    ensures forall i | 0 <= i < |s| :: IsDigit(s[i])
    ensures DecimalValue(s) == n
  {
    DecimalRoundTrip(n);
    if n < 10 then
      assert DecimalValue("0" + Decimal(n)) == n by {
        assert ("0" + Decimal(n))[..1] == "0";
      }
      "0" + Decimal(n)
    else
      assert n < 100 ==> Decimal(n) == Decimal(n / 10) + [DigitChar(n % 10)];
      Decimal(n)
  }

  predicate AllDigits(s: string) {
    forall i | 0 <= i < |s| :: IsDigit(s[i])
  }

  /** `%02d:%02d` and `%02d:%02d:%02d`: with fields below 100, two-digit
      fields that denote the clock's numbers, separated by colons. */
  function Render(c: Clock): (s: string)
    ensures c == Unknown <==> s == "unknown"
    ensures c.MinSec? && c.m < 100 && c.s < 100 ==>
      && |s| == 5 && s[2] == ':' && AllDigits(s[..2]) && AllDigits(s[3..])
      && DecimalValue(s[..2]) == c.m && DecimalValue(s[3..]) == c.s
    ensures c.HourMinSec? && c.h < 100 && c.m < 100 && c.s < 100 ==>
      && |s| == 8 && s[2] == ':' && s[5] == ':' && AllDigits(s[..2]) && AllDigits(s[3..5]) && AllDigits(s[6..])
      && DecimalValue(s[..2]) == c.h && DecimalValue(s[3..5]) == c.m && DecimalValue(s[6..]) == c.s
  {
    match c
    case Unknown => "unknown"
    case MinSec(m, s) =>
      var r := Pad2(m) + ":" + Pad2(s);
      assert r[0] == Pad2(m)[0];
      assert m < 100 && s < 100 ==> r[..2] == Pad2(m) && r[3..] == Pad2(s);
      r
    case HourMinSec(h, m, s) =>
      var r := Pad2(h) + ":" + Pad2(m) + ":" + Pad2(s);
      assert r[0] == Pad2(h)[0];
      assert h < 100 && m < 100 && s < 100 ==> r[..2] == Pad2(h) && r[3..5] == Pad2(m) && r[6..] == Pad2(s);
      r
  }

  /** Negative durations are unknown; zero prints as 00:00. */
  lemma EdgeDurationExamples()
    ensures FormatDuration(-1) == Unknown
    ensures FormatDuration(0) == MinSec(0, 0)
  {
  }

  /** Durations below an hour print as minutes and seconds. */
  lemma ShortDurationExamples()
    ensures FormatDuration(59) == MinSec(0, 59)
    ensures FormatDuration(3599) == MinSec(59, 59)
  {
    assert 3599 / 3600 == 0 && 3599 / 60 == 59;
  }

  /** From one hour on, the hours are printed too. */
  lemma LongDurationExamples()
    ensures FormatDuration(3600) == HourMinSec(1, 0, 0)
    ensures FormatDuration(3725) == HourMinSec(1, 2, 5)
  {
  }
}
