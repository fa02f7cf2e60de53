/**
 * The string operations the core relies on: Python's rendering of integers in
 * f-strings, `format(n, '0Nx')` for trace and span identifiers, `.3f`
 * rendering of a millisecond duration as seconds, slicing `s[:n]` and
 * `str.replace`.
 */
module Text {

  // ---------------------------------------------------------------------------
  // Decimal
  // ---------------------------------------------------------------------------

  predicate IsDecimalDigit(c: char) {
    '0' <= c <= '9'
  }

  predicate AllDecimal(s: string) {
    forall i | 0 <= i < |s| :: IsDecimalDigit(s[i])
  }

  function DecimalDigit(d: nat): (c: char)
    requires d < 10
    ensures IsDecimalDigit(c) && c as int - '0' as int == d
  {
    ('0' as int + d) as char
  }

  /** The number a string of decimal digits denotes (most significant first). */
  function DecimalValue(s: string): nat
    requires AllDecimal(s)
  {
    if s == [] then 0
    else 10 * DecimalValue(s[..|s| - 1]) + (s[|s| - 1] as int - '0' as int)
  }

  /** `str(n)` for a non-negative Python int: shortest digit string, no leading zero. */
  function NatToDecimal(n: nat): (s: string)
    ensures |s| > 0 && AllDecimal(s)
    ensures DecimalValue(s) == n
    ensures s[0] == '0' ==> s == "0"
  {
    if n < 10 then [DecimalDigit(n)]
    else
      var prefix := NatToDecimal(n / 10);
      var s := prefix + [DecimalDigit(n % 10)];
      assert s[..|s| - 1] == prefix;
      s
  }

  /** `str(i)` for any Python int: a minus sign before the digits of a negative value. */
  function IntToDecimal(i: int): (s: string)
    ensures |s| > 0
    ensures i < 0 <==> s[0] == '-'
  {
    if i < 0 then "-" + NatToDecimal(-i) else NatToDecimal(i)
  }

  /** The digits of `str(i)` after any sign denote the magnitude of `i`. */
  lemma IntToDecimalValue(i: int)
    ensures i < 0 ==> AllDecimal(IntToDecimal(i)[1..]) && DecimalValue(IntToDecimal(i)[1..]) == -i
    ensures i >= 0 ==> AllDecimal(IntToDecimal(i)) && DecimalValue(IntToDecimal(i)) == i
  {
    if i < 0 {
      assert IntToDecimal(i)[1..] == NatToDecimal(-i);
    }
  }

  /** Python's `s[:n]` for a non-negative bound `n`. */
  function Take<T>(s: seq<T>, n: nat): (r: seq<T>)
    ensures |r| <= n
    ensures |r| == if |s| <= n then |s| else n
    ensures r <= s
  {
    if |s| <= n then s else s[..n]
  }

  /** `width` copies of `c`, written before `s` when `s` is shorter than `width`. */
  function LeftPad(s: string, width: nat, c: char): (r: string)
    ensures |r| == if |s| >= width then |s| else width
  {
    if |s| >= width then s else seq(width - |s|, _ => c) + s
  }

  /** Padding puts copies of `c` before `s` and nothing after it. */
  lemma LeftPadShape(s: string, width: nat, c: char)
    ensures var r := LeftPad(s, width, c);
      && r == r[..|r| - |s|] + s
      && forall i | 0 <= i < |r| - |s| :: r[i] == c
  {
    var r := LeftPad(s, width, c);
    assert r[|r| - |s|..] == s;
  }

  /**
   * Rendering of a duration of `ms` milliseconds as seconds with exactly three
   * decimals, as `f"{seconds:.3f}"` prints it: an optional minus sign, the whole
   * seconds, a point and the three digits of `Thousandths`.
   */
  function FormatMillis(ms: int): (s: string)
    ensures |s| >= 5
    ensures ms < 0 <==> s[0] == '-'
    ensures s[|s| - 4] == '.'
  {
    var magnitude: nat := if ms < 0 then -ms else ms;
    (if ms < 0 then "-" else "") + NatToDecimal(magnitude / 1000) + "." + Thousandths(magnitude)
  }

  /** The last three characters of a rendered duration are the thousandths of its magnitude. */
  lemma FormatMillisFraction(ms: int)
    ensures var s := FormatMillis(ms);
      s[|s| - 3..] == Thousandths(if ms < 0 then -ms else ms)
  {
    var magnitude: nat := if ms < 0 then -ms else ms;
    var head := (if ms < 0 then "-" else "") + NatToDecimal(magnitude / 1000) + ".";
    var s := FormatMillis(ms);
    assert s == head + Thousandths(magnitude);
    assert s[|head|..] == Thousandths(magnitude);
  }

  /** The digits between any sign and the point denote the whole seconds of the duration's magnitude. */
  lemma FormatMillisWhole(ms: int)
    ensures var s := FormatMillis(ms);
      && (if ms < 0 then 1 else 0) <= |s| - 4
      && AllDecimal(s[(if ms < 0 then 1 else 0)..|s| - 4])
      && DecimalValue(s[(if ms < 0 then 1 else 0)..|s| - 4]) == (if ms < 0 then -ms else ms) / 1000
  {
    var magnitude: nat := if ms < 0 then -ms else ms;
    var sign := if ms < 0 then "-" else "";
    var digits := NatToDecimal(magnitude / 1000);
    var s := FormatMillis(ms);
    assert s == sign + digits + "." + Thousandths(magnitude);
    assert s[|sign|..|s| - 4] == digits;
  }

  /** The three digits after the point: `m % 1000`, zero-padded on the left. */
  function Thousandths(m: nat): (s: string)
    ensures |s| == 3 && AllDecimal(s) && DecimalValue(s) == m % 1000
  {
    var digits := NatToDecimal(m % 1000);
    assert |digits| <= 3 by {
      if |digits| > 3 {
        DecimalAtLeast(digits);
      }
    }
    var s := LeftPad(digits, 3, '0');
    LeftPadShape(digits, 3, '0');
    LeadingZerosDecimal(s[..|s| - |digits|], digits);
    s
  }

  lemma {:induction false} ZerosHaveNoValue(z: string)
    requires forall i | 0 <= i < |z| :: z[i] == '0'
    ensures AllDecimal(z) && DecimalValue(z) == 0
  {
    if z != [] {
      ZerosHaveNoValue(z[..|z| - 1]);
    }
  }

  lemma {:induction false} LeadingZerosDecimal(z: string, s: string)
    requires forall i | 0 <= i < |z| :: z[i] == '0'
    requires AllDecimal(s)
    ensures AllDecimal(z + s) && DecimalValue(z + s) == DecimalValue(s)
  {
    if s == [] {
      assert z + s == z;
      ZerosHaveNoValue(z);
    } else {
      var t := z + s;
      assert t[..|t| - 1] == z + s[..|s| - 1];
      LeadingZerosDecimal(z, s[..|s| - 1]);
    }
  }

  /** A digit string with no leading zero and more than three digits denotes at least 1000. */
  lemma {:induction false} DecimalAtLeast(s: string)
    requires AllDecimal(s) && |s| > 3 && s[0] != '0'
    ensures DecimalValue(s) >= 1000
  {
    if |s| == 4 {
      var p := s[..3];
      assert p[..2][..1] == [s[0]];
      assert DecimalValue([s[0]]) == s[0] as int - '0' as int;
      assert DecimalValue(p[..2]) >= 10 by {
        assert p[..2][..1] == [s[0]];
      }
    } else {
      var p := s[..|s| - 1];
      assert p[0] == s[0];
      DecimalAtLeast(p);
    }
  }

  // ---------------------------------------------------------------------------
  // Hexadecimal
  // ---------------------------------------------------------------------------

  predicate IsLowerHexDigit(c: char) {
    '0' <= c <= '9' || 'a' <= c <= 'f'
  }

  predicate AllLowerHex(s: string) {
    forall i | 0 <= i < |s| :: IsLowerHexDigit(s[i])
  }

  function HexDigit(d: nat): (c: char)
    requires d < 16
    ensures IsLowerHexDigit(c) && HexDigitValue(c) == d
  {
    if d < 10 then ('0' as int + d) as char else ('a' as int + d - 10) as char
  }

  function HexDigitValue(c: char): (d: nat)
    requires IsLowerHexDigit(c)
    ensures d < 16
  {
    if c <= '9' then c as int - '0' as int else c as int - 'a' as int + 10
  }

  /** The number a string of hexadecimal digits denotes (most significant first). */
  function HexValue(s: string): nat
    requires AllLowerHex(s)
  {
    if s == [] then 0 else 16 * HexValue(s[..|s| - 1]) + HexDigitValue(s[|s| - 1])
  }

  function Pow16(k: nat): (p: nat)
    ensures p > 0
  {
    if k == 0 then 1 else 16 * Pow16(k - 1)
  }

  /** `format(n, 'x')`: the shortest lower-case hexadecimal rendering of `n`. */
  function ToHex(n: nat): (s: string)
    ensures |s| > 0 && AllLowerHex(s)
    ensures HexValue(s) == n
  {
    if n < 16 then [HexDigit(n)]
    else
      var prefix := ToHex(n / 16);
      var s := prefix + [HexDigit(n % 16)];
      assert s[..|s| - 1] == prefix;
      s
  }

  /** `format(n, '0' + str(width) + 'x')`: the rendering of `n`, zero-padded on the left to `width`. */
  function FormatHex(n: nat, width: nat): (s: string)
    ensures |s| >= width && AllLowerHex(s)
  {
    LeftPad(ToHex(n), width, '0')
  }

  lemma {:induction false} ToHexLength(n: nat, k: nat)
    requires 0 < k && n < Pow16(k)
    ensures |ToHex(n)| <= k
  {
    if n >= 16 {
      assert k > 1;
      ToHexLength(n / 16, k - 1);
    }
  }

  lemma {:induction false} LeadingZerosHex(z: string, s: string)
    requires forall i | 0 <= i < |z| :: z[i] == '0'
    requires AllLowerHex(s)
    ensures AllLowerHex(z + s) && HexValue(z + s) == HexValue(s)
  {
    if s == [] {
      assert z + s == z;
      if z != [] {
        LeadingZerosHex(z[..|z| - 1], []);
        assert z[..|z| - 1] + [] == z[..|z| - 1];
      }
    } else {
      var t := z + s;
      assert t[..|t| - 1] == z + s[..|s| - 1];
      LeadingZerosHex(z, s[..|s| - 1]);
    }
  }

  /** Zero padding never changes the number that a rendered identifier denotes. */
  lemma FormatHexRoundTrip(n: nat, width: nat)
    ensures HexValue(FormatHex(n, width)) == n
  {
    var h := ToHex(n);
    var s := FormatHex(n, width);
    LeftPadShape(h, width, '0');
    LeadingZerosHex(s[..|s| - |h|], h);
  }

  /** A value below 16^width renders in exactly `width` digits. */
  lemma FormatHexFixedWidth(n: nat, width: nat)
    requires 0 < width && n < Pow16(width)
    ensures |FormatHex(n, width)| == width
  {
    ToHexLength(n, width);
  }

  // ---------------------------------------------------------------------------
  // str.replace
  // ---------------------------------------------------------------------------

  /**
   * Python's `s.replace(pat, rep)` for a non-empty pattern: scanning from the
   * left, every occurrence that does not overlap an earlier replaced one is
   * replaced.
   */
  function ReplaceAll(s: string, pat: string, rep: string): (r: string)
    requires |pat| > 0
    ensures |pat| == |rep| ==> |r| == |s|
    ensures |s| < |pat| ==> r == s
    decreases |s|
  {
    if |s| < |pat| then s
    else if s[..|pat|] == pat then rep + ReplaceAll(s[|pat|..], pat, rep)
    else [s[0]] + ReplaceAll(s[1..], pat, rep)
  }

}
