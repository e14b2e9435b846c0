/** Decimal rendering of integers, as `Number.prototype.toString` does for
    integral values, and `String.prototype.padStart`. */
module Text {

  predicate IsDigit(c: char) {
    '0' <= c <= '9'
  }

  /** A string made only of decimal digits. */
  predicate IsNumeral(s: string) {
    forall i :: 0 <= i < |s| ==> IsDigit(s[i])
  }

  function DigitChar(d: nat): (c: char)
    requires d < 10
    ensures IsDigit(c)
    ensures DigitValue(c) == d
  {
    ('0' as int + d) as char
  }

  function DigitValue(c: char): (d: nat)
    requires IsDigit(c)
    ensures d < 10
  {
    c as int - '0' as int
  }

  /** The shortest decimal numeral of `n`, without leading zeros; what
      `toString` gives for integers below 10^21. */
  function NatToDecimal(n: nat): (s: string)
    ensures 0 < |s|
    ensures IsNumeral(s)
    ensures (n < 10) <==> |s| == 1
    ensures n < 100 ==> |s| <= 2
    ensures 1 < |s| ==> s[0] != '0'
    decreases n
  {
    if n < 10 then [DigitChar(n)] else NatToDecimal(n / 10) + [DigitChar(n % 10)]
  }

  /** JavaScript's decimal rendering of an integral number below 10^21 in
      magnitude: a minus sign followed by the magnitude for negative values.
      (From 10^21 up JavaScript switches to exponent notation.) */
  function IntToString(i: int): (s: string)
    ensures 0 < |s|
    ensures 0 <= i ==> s == NatToDecimal(i)
    ensures i < 0 ==> s[0] == '-' && s[1..] == NatToDecimal(-i)
  {
    if i < 0 then "-" + NatToDecimal(-i) else NatToDecimal(i)
  }

  /** The value of a string of digits read as a decimal numeral; the
      reference definition `NatToDecimal` is checked against. */
  function ParseDecimal(s: string): nat
    requires IsNumeral(s)
  {
    if |s| == 0 then 0 else ParseDecimal(s[..|s| - 1]) * 10 + DigitValue(s[|s| - 1])
  }

  lemma {:induction false} DecimalRoundTrip(n: nat)
    ensures ParseDecimal(NatToDecimal(n)) == n
    decreases n
  {
    if n >= 10 {
      var s := NatToDecimal(n);
      assert s[..|s| - 1] == NatToDecimal(n / 10);
      DecimalRoundTrip(n / 10);
    }
  }

  /** Leading zeros do not change the value of a numeral. */
  lemma {:induction false} LeadingZerosIgnored(z: nat, s: string)
    requires IsNumeral(s)
    ensures IsNumeral(Zeros(z) + s)
    ensures ParseDecimal(Zeros(z) + s) == ParseDecimal(s)
    decreases |s|, z
  {
    var t := Zeros(z) + s;
    if |s| == 0 {
      assert t == Zeros(z);
      if z > 0 {
        assert t[..|t| - 1] == Zeros(z - 1) + s;
        LeadingZerosIgnored(z - 1, s);
      }
    } else {
      assert t[..|t| - 1] == Zeros(z) + s[..|s| - 1];
      LeadingZerosIgnored(z, s[..|s| - 1]);
    }
  }

  function Zeros(z: nat): (r: string)
    ensures |r| == z
    ensures forall i :: 0 <= i < z ==> r[i] == '0'
  {
    seq(z, _ => '0')
  }

  /** `s.padStart(width, fill)` for a one-character fill string: `s`
      left-filled with `fill` up to `width` characters, never truncated. */
  function PadStart(s: string, width: nat, fill: char): (r: string)
    ensures |r| == if |s| < width then width else |s|
    ensures r[|r| - |s|..] == s
    ensures forall i :: 0 <= i < |r| - |s| ==> r[i] == fill
  {
    if |s| < width then seq(width - |s|, _ => fill) + s else s
  }

  /** `value.toString().padStart(2, '0')`: the countdown's two-digit cell. */
  function TwoDigits(value: nat): (r: string)
    ensures IsNumeral(r)
    ensures value < 100 ==> |r| == 2
    ensures 100 <= value ==> r == NatToDecimal(value)
    ensures ParseDecimal(r) == value
  {
    var d := NatToDecimal(value);
    var r := PadStart(d, 2, '0');
    assert r == Zeros(|r| - |d|) + d;
    LeadingZerosIgnored(|r| - |d|, d);
    DecimalRoundTrip(value);
    r
  }
}
