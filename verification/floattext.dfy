/** Port readings and their decimal text.

    Values are exact reals; single-precision rounding is not modelled.  The
    firmware marks an out-of-range sample by storing `HUGE_VAL` or `-HUGE_VAL`
    in the port's value; the model keeps that as a tag of its own.

    The text form is what `printf("%f")` and `std::to_string(float)` produce
    (six digits after the point, rounded to nearest, `inf` and `-inf` for the
    two sentinels), and `atof`/`stof` read it back as a decimal prefix. */
module FloatText {
  import opened CStrings

  datatype Reading =
    | Measured(x: real)  // an ordinary value
    | OverRange          // +HUGE_VAL, printed "inf"
    | UnderRange         // -HUGE_VAL, printed "-inf"

  const MICRO: nat := 1000000

  function Abs(x: real): real {
    if x < 0.0 then -x else x
  }

  /** |x| in millionths, rounded to nearest. */
  function Micros(x: real): nat
  {
    var m := (Abs(x) * MICRO as real + 0.5).Floor;
    if m < 0 then 0 else m
  }

  /** Decimal digits of `n` without leading zeros ("0" for zero). */
  function NatToDigits(n: nat): (s: string)
    ensures |s| > 0 && AllDigits(s)
    ensures DigitsValue(s) == n
    decreases n
  {
    var last := DigitChar(n % 10);
    var s := (if n < 10 then "" else NatToDigits(n / 10)) + [last];
    assert s[..|s| - 1] == (if n < 10 then "" else NatToDigits(n / 10));
    s
  }

  /** Exactly `k` decimal digits of `m`, with leading zeros. */
  function PadDigits(m: nat, k: nat): (s: string)
    requires m < Pow10(k)
    ensures |s| == k && AllDigits(s)
    ensures DigitsValue(s) == m
    decreases k
  {
    if k == 0 then ""
    else
      var s := PadDigits(m / 10, k - 1) + [DigitChar(m % 10)];
      assert s[..|s| - 1] == PadDigits(m / 10, k - 1);
      s
  }

  function Pow10(k: nat): (p: nat)
    ensures p > 0
  {
    if k == 0 then 1 else 10 * Pow10(k - 1)
  }

  lemma Pow10Six()
    ensures Pow10(6) == MICRO
  {
    assert Pow10(1) == 10;
    assert Pow10(2) == 100;
    assert Pow10(3) == 1000;
    assert Pow10(4) == 10000;
    assert Pow10(5) == 100000;
  }

  /** Characters the record format uses as separators. */
  predicate FieldSafe(s: string) {
    forall i :: 0 <= i < |s| ==> s[i] != ',' && s[i] != '\n'
  }

  function SignedText(neg: bool, body: string): (s: string)
    requires DigitsOrPoint(body) && |body| > 0
    ensures |s| > 0 && FieldSafe(s)
  {
    if neg then
      var s := "-" + body;
      forall i | 0 <= i < |s| ensures s[i] != ',' && s[i] != '\n' {
        if i > 0 {
          assert s[i] == body[i - 1];
        }
      }
      s
    else body
  }

  /** The `%f` text of a reading. */
  function FormatF(r: Reading): (s: string)
    ensures |s| > 0 && FieldSafe(s)
  {
    match r
    case OverRange => "inf"
    case UnderRange => "-inf"
    case Measured(x) => SignedText(x < 0.0, FixedText(Micros(x)))
  }

  /** The reading `atof` recovers from `FormatF(r)`: the value rounded to six
      decimal places; the sentinels come back unchanged. */
  function Round6(r: Reading): Reading
  {
    match r
    case Measured(x) =>
      var v := Micros(x) as real / MICRO as real;
      Measured(if x < 0.0 then -v else v)
    case _ => r
  }

  predicate IsInfPrefix(s: string) {
    |s| >= 3 && s[0] in {'i', 'I'} && s[1] in {'n', 'N'} && s[2] in {'f', 'F'}
  }

  /** Value of the longest `digits[.digits]` prefix of `s` (0 when there are no
      digits). */
  function DecimalPrefix(s: string): (v: real)
    ensures v >= 0.0
  {
    var i := DigitRun(s);
    var whole := DigitsValue(s[..i]) as real;
    var rest := s[i..];
    if |rest| > 0 && rest[0] == '.' then
      var frac := rest[1..];
      var j := DigitRun(frac);
      whole + DigitsValue(frac[..j]) as real / Pow10(j) as real
    else whole
  }

  /** `atof`: optional white space and sign, then `inf` (any case) or a decimal
      prefix.  Exponents, hexadecimal floats and `nan` are not recognised. */
  function ParseF(s: string): Reading
  {
    var t := SkipSpace(s);
    if |t| > 0 && t[0] == '-' then ParseUnsigned(true, t[1..])
    else if |t| > 0 && t[0] == '+' then ParseUnsigned(false, t[1..])
    else ParseUnsigned(false, t)
  }

  function ParseUnsigned(neg: bool, u: string): Reading
  {
    if IsInfPrefix(u) then (if neg then UnderRange else OverRange)
    else
      var v := DecimalPrefix(u);
      Measured(if neg then -v else v)
  }

  /** `atof` on the configuration's numeric fields: the signed decimal prefix.
      The infinity spelling is not treated specially here. */
  function AtofDecimal(s: string): (v: real)
    ensures |s| > 0 && IsDigit(s[0]) ==> v == DecimalPrefix(s)
    ensures |s| > 0 && s[0] == '-' ==> v == -DecimalPrefix(s[1..])
    ensures |s| > 0 && s[0] == '+' ==> v == DecimalPrefix(s[1..])
  {
    assert |s| > 0 && !IsSpace(s[0]) ==> SkipSpace(s) == s;
    var t := SkipSpace(s);
    if |t| > 0 && t[0] == '-' then -DecimalPrefix(t[1..])
    else if |t| > 0 && t[0] == '+' then DecimalPrefix(t[1..])
    else DecimalPrefix(t)
  }

  /** `stof` on text that starts with a digit: its decimal prefix. */
  function Stof(s: string): (v: real)
    requires |s| > 0 && IsDigit(s[0])
    ensures v >= 0.0
  {
    assert SkipSpace(s) == s;
    DecimalPrefix(s)
  }

  lemma DecimalOfFormat(q: nat, m: nat)
    requires m < MICRO
    ensures DecimalPrefix(NatToDigits(q) + "." + PadDigits(m, 6))
            == q as real + m as real / MICRO as real
  {
    Pow10Six();
    var d, p := NatToDigits(q), PadDigits(m, 6);
    var s := d + "." + p;
    assert s == d + ("." + p);
    DigitRunAppend(d, "." + p);
    assert s[..|d|] == d;
    assert s[|d|..] == "." + p;
    assert s[|d|..][1..] == p;
    DigitRunAppend(p, "");
    assert p + "" == p;
    assert p[..6] == p;
  }

  predicate DigitsOrPoint(s: string) {
    forall i :: 0 <= i < |s| ==> IsDigit(s[i]) || s[i] == '.'
  }

  lemma DigitsPointDigits(d: string, p: string)
    requires AllDigits(d) && AllDigits(p)
    ensures DigitsOrPoint(d + "." + p)
  {
    var s := d + "." + p;
    forall i | 0 <= i < |s| ensures IsDigit(s[i]) || s[i] == '.' {
      if i < |d| {
        assert s[i] == d[i];
      } else if i > |d| {
        assert s[i] == p[i - |d| - 1];
      }
    }
  }

  /** Unsigned `%f` text of a count of millionths: digits, a point and six
      digits. */
  function FixedText(m: nat): (s: string)
    ensures DigitsOrPoint(s)
    ensures |s| > 0 && IsDigit(s[0])
  {
    Pow10Six();
    var d, p := NatToDigits(m / 1000000), PadDigits(m % 1000000, 6);
    DigitsPointDigits(d, p);
    var s := d + "." + p;
    assert s[0] == d[0];
    assert IsDigit(d[0]);
    s
  }

  lemma FixedTextValue(m: nat)
    ensures DecimalPrefix(FixedText(m)) == m as real / MICRO as real
  {
    DecimalOfFormat(m / MICRO, m % MICRO);
    var q, f := m / MICRO, m % MICRO;
    assert m == q * MICRO + f;
    assert (m as real) == (q as real) * (MICRO as real) + (f as real);
  }

  /** Text that starts with anything but white space is not skipped. */
  lemma NoLeadingSpace(s: string)
    requires |s| > 0 && !IsSpace(s[0])
    ensures SkipSpace(s) == s
  {
  }

  lemma ParseUnsignedDigits(neg: bool, u: string)
    requires |u| > 0 && IsDigit(u[0])
    ensures ParseUnsigned(neg, u) == Measured(if neg then -DecimalPrefix(u) else DecimalPrefix(u))
  {
    assert !IsInfPrefix(u);
  }

  /** `atof` on text starting with a minus sign reads the rest as negative. */
  lemma ParseMinus(s: string)
    requires |s| > 0 && s[0] == '-'
    ensures ParseF(s) == ParseUnsigned(true, s[1..])
  {
    NoLeadingSpace(s);
  }

  /** `atof` on text starting with neither white space nor a sign. */
  lemma ParsePlain(s: string)
    requires |s| > 0 && !IsSpace(s[0]) && s[0] != '-' && s[0] != '+'
    ensures ParseF(s) == ParseUnsigned(false, s)
  {
    NoLeadingSpace(s);
  }

  lemma ParseSignedBody(neg: bool, body: string)
    requires |body| > 0 && IsDigit(body[0]) && DigitsOrPoint(body)
    ensures ParseF(SignedText(neg, body))
            == Measured(if neg then -DecimalPrefix(body) else DecimalPrefix(body))
  {
    ParseUnsignedDigits(neg, body);
    if neg {
      var s := "-" + body;
      assert SignedText(neg, body) == s;
      ParseMinus(s);
      assert s[1..] == body;
    } else {
      assert SignedText(neg, body) == body;
      ParsePlain(body);
    }
  }

  lemma ParseInf()
    ensures ParseF("inf") == OverRange
  {
    var s := "inf";
    assert s[0] == 'i' && s[1] == 'n' && s[2] == 'f';
    ParsePlain(s);
  }

  lemma ParseMinusInf()
    ensures ParseF("-inf") == UnderRange
  {
    var s := "-inf";
    assert s[0] == '-';
    ParseMinus(s);
    assert s[1..] == "inf";
    assert IsInfPrefix("inf");
  }

  lemma ParseMeasured(x: real)
    ensures ParseF(FormatF(Measured(x))) == Round6(Measured(x))
  {
    var m := Micros(x);
    var body := FixedText(m);
    ParseSignedBody(x < 0.0, body);
    FixedTextValue(m);
  }

  /** Reading back the `%f` text of a reading gives the reading rounded to six
      decimal places: the value round trip through the backlog file. */
  lemma {:induction false} ParseFormat(r: Reading)
    ensures ParseF(FormatF(r)) == Round6(r)
  {
    match r
    case OverRange => ParseInf();
    case UnderRange => ParseMinusInf();
    case Measured(x) => ParseMeasured(x);
  }
}
