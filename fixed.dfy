/** Python's fixed-point formatting `f"{x:.4f}"`, which the application uses for
    the intercept in the formula string, for the r2 and mse labels and for the
    prediction result; and the reading of such text back as a number. Values
    are exact reals: the text shows `x` rounded to four decimals, exact halves
    going to the even neighbour. */
module Fixed {
  import opened Text

  function DigitChar(d: nat): (c: char)
    requires d < 10
    ensures IsDigit(c)
  {
    ('0' as int + d) as char
  }

  function DigitValue(c: char): (d: nat)
    requires IsDigit(c)
    ensures d < 10 && DigitChar(d) == c
  {
    c as int - '0' as int
  }

  predicate AllDigits(s: string) {
    forall i :: 0 <= i < |s| ==> IsDigit(s[i])
  }

  /** The decimal numeral of `n`, without leading zeros. */
  function NatText(n: nat): (s: string)
    ensures |s| >= 1 && AllDigits(s)
    decreases n
  {
    if n < 10 then [DigitChar(n)] else NatText(n / 10) + [DigitChar(n % 10)]
  }

  /** The number a string of decimal digits denotes. */
  function DigitsValue(s: string): nat
    requires AllDigits(s)
  {
    if s == [] then 0 else DigitsValue(s[..|s| - 1]) * 10 + DigitValue(s[|s| - 1])
  }

  lemma {:induction false} NatTextValue(n: nat)
    ensures DigitsValue(NatText(n)) == n
    decreases n
  {
    var s := NatText(n);
    if n < 10 {
      assert s[..|s| - 1] == [];
    } else {
      NatTextValue(n / 10);
      assert s[..|s| - 1] == NatText(n / 10);
    }
  }

  /** The four fractional digits of `r`, zero-padded. */
  function Pad4(r: nat): (s: string)
    requires r < 10000
    ensures |s| == 4 && AllDigits(s)
  {
    [DigitChar(r / 10 / 10 / 10), DigitChar(r / 10 / 10 % 10), DigitChar(r / 10 % 10), DigitChar(r % 10)]
  }

  lemma Pad4Value(r: nat)
    requires r < 10000
    ensures DigitsValue(Pad4(r)) == r
  {
    var s := Pad4(r);
    assert s[..3][..2][..1][..0] == [];
    assert DigitsValue(s[..3][..2][..1]) == r / 10 / 10 / 10;
    assert DigitsValue(s[..3][..2]) == r / 10 / 10;
    assert DigitsValue(s[..3]) == r / 10;
  }

  function Pow10(k: nat): (p: nat)
    ensures p >= 1
  {
    if k == 0 then 1 else 10 * Pow10(k - 1)
  }

  /** The integer nearest to `y`; an exact half goes to the even neighbour. */
  function RoundHalfEven(y: real): (n: int)
    ensures (n as real) - y <= 0.5 && y - (n as real) <= 0.5
    ensures y >= 0.0 ==> n >= 0
  {
    var f := y.Floor;
    var d := y - f as real;
    if d < 0.5 then f
    else if d > 0.5 then f + 1
    else if f % 2 == 0 then f else f + 1
  }

  function Abs(x: real): real { if x < 0.0 then -x else x }

  /** `|x|` in units of 0.0001, rounded. */
  function Scaled(x: real): nat {
    RoundHalfEven(Abs(x) * 10000.0)
  }

  /** `f"{x:.4f}"`: an optional minus sign, the integer part, a point and four digits. */
  function Format4(x: real): string {
    var n := Scaled(x);
    (if x < 0.0 then "-" else "") + NatText(n / 10000) + "." + Pad4(n % 10000)
  }

  /** The number `Format4(x)` shows: `x` rounded to four decimals. */
  function Round4(x: real): real {
    var v := Scaled(x) as real / 10000.0;
    if x < 0.0 then -v else v
  }

  /** Rounding to four decimals moves a value by at most half a unit of 0.0001. */
  lemma Round4Close(x: real)
    ensures Round4(x) - x <= 0.00005 && x - Round4(x) <= 0.00005
  {
    var y := Abs(x) * 10000.0;
    var n := Scaled(x);
    assert (n as real) - y <= 0.5 && y - (n as real) <= 0.5;
    assert Abs(x) == y / 10000.0;
  }

  /** Text of the shape `[-]digits.digits`, as `Format4` writes it. */
  predicate IsDecimal(s: string) {
    var body := if s != [] && s[0] == '-' then s[1..] else s;
    var parts := Split(body, '.');
    |parts| == 2 && parts[0] != [] && parts[1] != [] && AllDigits(parts[0]) && AllDigits(parts[1])
  }

  /** The number that decimal text denotes. */
  function DecimalValue(s: string): real
    requires IsDecimal(s)
  {
    var neg := s != [] && s[0] == '-';
    var body := if neg then s[1..] else s;
    var parts := Split(body, '.');
    var v := DigitsValue(parts[0]) as real + DigitsValue(parts[1]) as real / Pow10(|parts[1]|) as real;
    if neg then -v else v
  }

  /** `Format4(x)` is decimal text whose value is `x` rounded to four decimals. */
  lemma Format4Value(x: real)
    ensures IsDecimal(Format4(x))
    ensures DecimalValue(Format4(x)) == Round4(x)
  {
    var n := Scaled(x);
    var q, r := n / 10000, n % 10000;
    DecimalLayout(x < 0.0, NatText(q), Pad4(r));
    NatTextValue(q);
    Pad4Value(r);
    assert Pow10(4) == 10000;
    assert (q as real) + (r as real) / 10000.0 == (n as real) / 10000.0 by {
      assert n == q * 10000 + r;
    }
  }

  /** `[-]ip.fp` with digit strings on both sides is decimal text: its sign
      is read off the minus, and the rest splits at the point into `ip` and `fp`. */
  lemma DecimalLayout(neg: bool, ip: string, fp: string)
    requires ip != [] && fp != [] && AllDigits(ip) && AllDigits(fp)
    ensures var s := (if neg then "-" else "") + ip + "." + fp;
      && IsDecimal(s)
      && (s != [] && s[0] == '-') == neg
      && Split(if neg then s[1..] else s, '.') == [ip, fp]
  {
    var body := ip + "." + fp;
    PointSplit(ip, fp);
    var s := (if neg then "-" else "") + body;
    assert s == (if neg then "-" else "") + ip + "." + fp;
    if neg {
      assert s == ['-'] + body && s[1..] == body;
    } else {
      assert s == body && IsDigit(ip[0]);
    }
  }

  /** `ip.fp` splits at the point into `ip` and `fp`, and starts with `ip`. */
  lemma PointSplit(ip: string, fp: string)
    requires ip != [] && AllDigits(ip) && AllDigits(fp)
    ensures Split(ip + "." + fp, '.') == [ip, fp]
    ensures (ip + "." + fp)[0] == ip[0]
  {
    assert '.' !in ip by { assert AllDigits(ip); }
    assert '.' !in fp by { assert AllDigits(fp); }
    assert ip + "." + fp == ip + ['.'] + fp;
    SplitAtSep(ip, fp, '.');
    SplitNoSep(fp, '.');
  }

  /** `Format4(x)` holds only digits, the point and a leading minus sign: no
      whitespace, no `+`, `=`, `*`, `,` or quote. */
  lemma Format4Chars(x: real)
    ensures |Format4(x)| >= 6
    ensures forall i :: 0 <= i < |Format4(x)| ==> IsDigit(Format4(x)[i]) || Format4(x)[i] == '.' || (i == 0 && Format4(x)[i] == '-')
  {
  }

  lemma Format4Eleven()
    ensures Format4(11.0) == "11.0000"
  {
    assert Scaled(11.0) == 110000;
    assert NatText(11) == "11";
    assert Pad4(0) == "0000";
  }
}
