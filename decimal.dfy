/** Amounts are held as whole cents. This module writes an amount the way
    Python's f"{x:.2f}" does and reads plain ASCII decimal text the way
    float() does, rounding the value half-up to whole cents. Only the ASCII
    digits 0-9 are read; Python also accepts other Unicode decimal digits. */
module Decimal {
  import opened Text
  import opened Options

  /** The magnitude of an amount (Python's abs). */
  function Abs(c: int): (m: nat)
    ensures m == c || m == -c
  {
    if c < 0 then -c else c
  }

  /** f"{x:.2f}" for an amount of c cents. */
  function FormatCents(c: int): string {
    (if c < 0 then "-" else "") + Unsigned(Abs(c))
  }

  /** The digits of m cents: whole units, a point, and two decimals. */
  function Unsigned(m: nat): (s: string)
    ensures |s| >= 4 && IsDigit(s[0]) && IsDigit(s[|s| - 1])
  {
    NatText(m / 100) + "." + PadDigits(m % 100, 2)
  }

  /** The cents denoted by the digits after the decimal point: the first
      two digits, plus one when the third digit is 5 or more. */
  function FractionCents(f: string): (n: nat)
    requires AllDigits(f)
    ensures n <= 100
  {
    var d1 := if |f| >= 1 then DigitValue(f[0]) else 0;
    var d2 := if |f| >= 2 then DigitValue(f[1]) else 0;
    var up := if |f| >= 3 && f[2] >= '5' then 1 else 0;
    d1 * 10 + d2 + up
  }

  /** An unsigned decimal numeral, digits with an optional fractional
      part and at least one digit in all, in cents. */
  function ParseUnsigned(body: string): (r: Option<int>)
    ensures r.Some? ==> r.value >= 0
  {
    var dot := IndexOf(body, '.');
    var whole := if dot < 0 then body else body[..dot];
    var frac := if dot < 0 then "" else body[dot + 1..];
    if (whole == [] && frac == []) || !AllDigits(whole) || !AllDigits(frac) then None
    else Some(DigitsValue(whole) * 100 + FractionCents(frac))
  }

  /** float(text), in cents: surrounding whitespace, then a signed
      numeral. None where float() raises ValueError. */
  function ParseDecimal(s: string): Option<int> {
    ParseSigned(Strip(s))
  }

  /** An optional sign followed by an unsigned numeral. */
  function ParseSigned(t: string): Option<int> {
    if t == [] then None
    else if t[0] == '-' then
      match ParseUnsigned(t[1..])
      case Some(m) => Some(-m)
      case None => None
    else if t[0] == '+' then ParseUnsigned(t[1..])
    else ParseUnsigned(t)
  }

  lemma {:induction false} FractionOfPadded(r: nat)
    requires r < 100
    ensures FractionCents(PadDigits(r, 2)) == r
  {
    var f := PadDigits(r, 2);
    assert f == PadDigits(r / 10, 1) + [DigitChar(r % 10)];
    assert PadDigits(r / 10, 1) == [DigitChar(r / 10 % 10)];
  }

  lemma {:induction false} ParseUnsignedFormat(m: nat)
    ensures ParseUnsigned(Unsigned(m)) == Some(m)
  {
    var q, r := m / 100, m % 100;
    var w := NatText(q);
    var body := Unsigned(m);
    assert body[|w|] == '.';
    assert body[..|w|] == w;
    assert '.' !in w;
    assert IndexOf(body, '.') == |w|;
    assert body[|w| + 1..] == PadDigits(r, 2);
    NatTextValue(q);
    FractionOfPadded(r);
  }

  lemma NegativeParse(body: string, v: int)
    requires ParseUnsigned(body) == Some(v)
    ensures ParseSigned("-" + body) == Some(-v)
  {
    assert ("-" + body)[1..] == body;
  }

  lemma {:induction false} SignedFormat(c: int)
    ensures ParseSigned(FormatCents(c)) == Some(c)
  {
    var s := FormatCents(c);
    ParseUnsignedFormat(Abs(c));
    if c < 0 {
      assert s == "-" + Unsigned(Abs(c));
      NegativeParse(Unsigned(Abs(c)), Abs(c));
    } else {
      assert s == Unsigned(Abs(c));
      assert IsDigit(s[0]);
      assert s != [] && s[0] != '-' && s[0] != '+';
      assert ParseSigned(s) == ParseUnsigned(s);
    }
  }

  lemma FormatIsStripped(c: int)
    ensures Strip(FormatCents(c)) == FormatCents(c)
  {
    var u := Unsigned(Abs(c));
    var s := FormatCents(c);
    assert !IsSpace(u[0]) && !IsSpace(u[|u| - 1]);
    if c < 0 {
      assert s == "-" + u;
      assert s[0] == '-' && s[|s| - 1] == u[|u| - 1];
    } else {
      assert s == u;
    }
    assert IsStripped(s);
  }

  /** Reading back what was written gives the same number of cents. */
  lemma FormatParse(c: int)
    ensures ParseDecimal(FormatCents(c)) == Some(c)
  {
    FormatIsStripped(c);
    SignedFormat(c);
  }

  /** float("") and float(".") are refused. */
  lemma ParseRejects()
    ensures ParseDecimal("") == None
    ensures ParseUnsigned(".") == None
  {
    assert IndexOf(".", '.') == 0;
  }
}
