/** Numbers as the source prints and parses them. Every float the program shows is
    an exact decimal (a parsed string, a `units + nano / 1e9` price or a value
    rounded to two places), so it is held as `Decimal(digits, places)`. `round(x, 2)`
    is `Hundredths`, `repr` of a float is `ShowDecimal` and `float(s)` is `ParseFloat`. */
module Numbers {
  import opened PyCore
  import opened Text

  function Pow10(k: nat): (p: real)
    ensures p >= 1.0
  {
    Pow10Nat(k) as real
  }

  /** The exact decimal `digits * 10^-places`. */
  datatype Decimal = Decimal(digits: int, places: nat) {
    function Value(): real {
      digits as real / Pow10(places)
    }
  }

  /** A Python number the program prints: an `int`, or a float holding an exact decimal. */
  datatype Number = Int(i: int) | Float(d: Decimal) {
    function Value(): real {
      match this
      case Int(i) => i as real
      case Float(d) => d.Value()
    }

    /** Python `str(x)`: "0" for the integer zero, "0.0" for the float zero. */
    function Show(): (s: string)
      ensures AllNumeral(s)
    {
      match this
      case Int(i) =>
        NumeralAppend("-", NatToString(Abs(i)));
        IntToString(i)
      case Float(d) => ShowDecimal(d)
    }
  }

  function Abs(i: int): nat {
    if i < 0 then -i else i
  }

  /** Python `round(x, 2)` in hundredths: the nearest whole number of hundredths,
      and on an exact tie the even one. */
  function Hundredths(x: real): (h: int)
    ensures -0.5 <= x * 100.0 - h as real <= 0.5
    ensures x * 100.0 - h as real == 0.5 ==> h % 2 == 0
    ensures x * 100.0 - h as real == -0.5 ==> h % 2 == 0
  {
    var y := x * 100.0;
    var f := y.Floor;
    var d := y - f as real;
    if d < 0.5 then f
    else if d > 0.5 then f + 1
    else if f % 2 == 0 then f
    else f + 1
  }

  /** The contract of `Hundredths` determines its result. */
  lemma HundredthsUnique(x: real, h: int)
    requires -0.5 <= x * 100.0 - h as real <= 0.5
    requires x * 100.0 - h as real == 0.5 ==> h % 2 == 0
    requires x * 100.0 - h as real == -0.5 ==> h % 2 == 0
    ensures h == Hundredths(x)
  {
  }

  /** Python `round(x, 2)`: a float with two decimal places. */
  function Round2(x: real): (d: Decimal)
    ensures d.places == 2
    ensures -0.005 <= d.Value() - x <= 0.005
  {
    var h := Hundredths(x);
    assert Pow10Nat(2) == 100;
    assert Decimal(h, 2).Value() == h as real / 100.0;
    Decimal(h, 2)
  }

  /** A value that already has two decimals is left as it is. */
  lemma RoundExact(k: int)
    ensures Hundredths(k as real / 100.0) == k
  {
    assert (k as real / 100.0) * 100.0 == k as real;
    HundredthsUnique(k as real / 100.0, k);
  }

  /** Rounding keeps the order of its arguments. */
  lemma HundredthsMonotone(x: real, y: real)
    requires x <= y
    ensures Hundredths(x) <= Hundredths(y)
  {
  }

  /** Strips trailing zero digits after the point. */
  function Normalize(d: Decimal): (n: Decimal)
    ensures n.Value() == d.Value()
    ensures n.places <= d.places
    ensures n.places > 0 ==> n.digits % 10 != 0
    decreases d.places
  {
    if d.places > 0 && d.digits % 10 == 0 then
      var q := d.digits / 10;
      assert d.digits == 10 * q;
      assert Pow10(d.places) == 10.0 * Pow10(d.places - 1);
      assert Decimal(q, d.places - 1).Value() == d.Value() by {
        calc {
          d.Value();
          (10 * q) as real / (10.0 * Pow10(d.places - 1));
          q as real / Pow10(d.places - 1);
        }
      }
      Normalize(Decimal(q, d.places - 1))
    else d
  }

  /** The digits of `|digits|`, padded so that at least one digit precedes the point. */
  function PaddedDigits(n: Decimal): (s: string)
    ensures AllDigits(s) && |s| > n.places
    ensures DigitsValue(s) == Abs(n.digits)
  {
    DigitsValueOfNatToString(Abs(n.digits));
    PadLeft(NatToString(Abs(n.digits)), n.places + 1)
  }

  /** The characters of a printed decimal. */
  predicate IsNumeralChar(c: char) {
    IsDigit(c) || c == '-' || c == '.'
  }

  predicate AllNumeral(s: string) {
    forall i :: 0 <= i < |s| ==> IsNumeralChar(s[i])
  }

  /** A printed number holds no line break. */
  lemma NumeralHasNoNewline(s: string)
    requires AllNumeral(s)
    ensures '\n' !in s && CountChar(s, '\n') == 0
  {
  }

  /** A label followed by a printed number holds no line break when the label does not. */
  lemma TaggedNumeral(tag: string, s: string)
    requires '\n' !in tag && AllNumeral(s)
    ensures '\n' !in tag + s
  {
    NumeralHasNoNewline(s);
  }

  /** `v` lies within half a hundredth of `x`: what `round(x, 2)` promises. */
  predicate Near(v: real, x: real) {
    -0.005 <= v - x <= 0.005
  }

  lemma NumeralAppend(a: string, b: string)
    requires AllNumeral(a) && AllNumeral(b)
    ensures AllNumeral(a + b)
  {
  }

  /** Python `repr(float)` of an exact decimal: no trailing zeros after the point,
      but always at least one digit after it ("35839.0", "1.02", "0.5"). */
  function ShowDecimal(d: Decimal): (s: string)
    ensures |s| > 0 && IsDigit(s[|s| - 1]) && (IsDigit(s[0]) || s[0] == '-')
    ensures AllNumeral(s)
  {
    var n := Normalize(d);
    var sign := if n.digits < 0 then "-" else "";
    var mag := Abs(n.digits);
    if n.places == 0 then
      var w := NatToString(mag);
      assert AllNumeral(w);
      NumeralAppend(sign, w);
      NumeralAppend(sign + w, ".0");
      sign + w + ".0"
    else
      var p := PaddedDigits(n);
      var cut := |p| - n.places;
      assert AllNumeral(p[..cut]) && AllNumeral(p[cut..]);
      NumeralAppend(sign, p[..cut]);
      NumeralAppend(sign + p[..cut], ".");
      NumeralAppend(sign + p[..cut] + ".", p[cut..]);
      sign + p[..cut] + "." + p[cut..]
  }

  /** Python `float(s)`: surrounding whitespace is skipped, then the decimal forms
      `[+-]digits[.digits]`, `digits.` and `.digits` are read; `None` where Python
      raises `ValueError` or spells the value in a form this model leaves out. */
  function ParseFloat(s: string): Option<Decimal> {
    ParseNumeral(Strip(s))
  }

  /** `float(s)` on a string without surrounding whitespace. */
  function ParseNumeral(s: string): Option<Decimal> {
    if |s| > 0 && s[0] == '-' then
      match ParseMagnitude(s[1..])
      case Some(m) => Some(Decimal(-m.digits, m.places))
      case None => None
    else if |s| > 0 && s[0] == '+' then ParseMagnitude(s[1..])
    else ParseMagnitude(s)
  }

  /** The unsigned part of `float(s)`: digits with at most one point among them. */
  function ParseMagnitude(body: string): (r: Option<Decimal>)
    ensures r.Some? ==> r.value.digits >= 0
  {
    var parts := Split(body, '.');
    if |parts| > 2 then None
    else
      var whole := parts[0];
      var fraction := if |parts| == 2 then parts[1] else "";
      if AllDigits(whole) && AllDigits(fraction) && |whole| + |fraction| > 0 then
        DigitsValueAppend(whole, fraction);
        Some(Decimal(DigitsValue(whole + fraction), |fraction|))
      else None
  }

  /** Parsing `whole.fraction` reads its digits and the number of places. */
  lemma ParseMagnitudeOf(whole: string, fraction: string)
    requires AllDigits(whole) && AllDigits(fraction) && |whole| > 0
    ensures AllDigits(whole + fraction)
    ensures ParseMagnitude(whole + "." + fraction)
      == Some(Decimal(DigitsValue(whole + fraction), |fraction|))
  {
    assert '.' !in whole && '.' !in fraction by {
      assert !IsDigit('.');
    }
    assert Join([whole, fraction], '.') == whole + "." + fraction;
    SplitJoin([whole, fraction], '.');
    DigitsValueAppend(whole, fraction);
  }

  /** A string that starts with a digit parses as its magnitude. */
  lemma ParseUnsigned(body: string)
    requires |body| > 0 && IsDigit(body[0])
    ensures ParseNumeral(body) == ParseMagnitude(body)
  {
  }

  /** A leading '-' negates the parsed magnitude. */
  lemma ParseNegative(body: string, m: Decimal)
    requires ParseMagnitude(body) == Some(m)
    ensures ParseNumeral("-" + body) == Some(Decimal(-m.digits, m.places))
  {
    assert ("-" + body)[1..] == body;
  }

  /** Parsing `-whole.fraction` reads its digits and places and negates them. */
  lemma ParseShownNegative(whole: string, fraction: string)
    requires AllDigits(whole) && AllDigits(fraction) && |whole| > 0
    ensures AllDigits(whole + fraction)
    ensures ParseNumeral("-" + (whole + "." + fraction))
      == Some(Decimal(-(DigitsValue(whole + fraction) as int), |fraction|))
  {
    var body := whole + "." + fraction;
    var m := Decimal(DigitsValue(whole + fraction), |fraction|);
    ParseMagnitudeOf(whole, fraction);
    ParseNegative(body, m);
  }

  /** Parsing `whole.fraction` reads its digits and places. */
  lemma ParseShownUnsigned(whole: string, fraction: string)
    requires AllDigits(whole) && AllDigits(fraction) && |whole| > 0
    ensures AllDigits(whole + fraction)
    ensures ParseNumeral(whole + "." + fraction)
      == Some(Decimal(DigitsValue(whole + fraction), |fraction|))
  {
    var body := whole + "." + fraction;
    ParseMagnitudeOf(whole, fraction);
    assert body[0] == whole[0];
    ParseUnsigned(body);
  }

  /** The signs `float` accepts before a number. */
  predicate IsSign(sign: string) {
    sign == "" || sign == "-" || sign == "+"
  }

  function SignOf(sign: string): int {
    if sign == "-" then -1 else 1
  }

  /** `t` spells `d` as `sign`, then `whole`, then `.` and `fraction` (or, when there
      is no fraction, the point left out): a form `float` reads. */
  predicate SpellsAs(t: string, d: Decimal, sign: string, whole: string, fraction: string) {
    IsSign(sign) && AllDigits(whole) && AllDigits(fraction) && |whole| + |fraction| > 0
    && (t == sign + (whole + "." + fraction) || (fraction == "" && t == sign + whole))
    && (DigitsValueAppend(whole, fraction);
        d == Decimal(SignOf(sign) * DigitsValue(whole + fraction), |fraction|))
  }

  /** `t` spells `d` in some form `float` reads. */
  ghost predicate Spells(t: string, d: Decimal) {
    exists sign, whole, fraction :: SpellsAs(t, d, sign, whole, fraction)
  }

  /** A parsed magnitude is digits with at most one point among them. */
  lemma MagnitudeParts(body: string) returns (whole: string, fraction: string)
    requires ParseMagnitude(body).Some?
    ensures AllDigits(whole) && AllDigits(fraction) && AllDigits(whole + fraction) && |whole| + |fraction| > 0
    ensures body == whole + "." + fraction || (fraction == "" && body == whole)
    ensures ParseMagnitude(body).value == Decimal(DigitsValue(whole + fraction), |fraction|)
  {
    var parts := Split(body, '.');
    whole := parts[0];
    fraction := if |parts| == 2 then parts[1] else "";
    DigitsValueAppend(whole, fraction);
    if |parts| == 2 {
      JoinPoint(parts, body);
    } else {
      assert Join(parts, '.') == whole;
    }
  }

  /** Two parts joined by a point. */
  lemma JoinPoint(parts: seq<string>, body: string)
    requires |parts| == 2 && Join(parts, '.') == body
    ensures body == parts[0] + "." + parts[1]
  {
    assert parts[1..] == [parts[1]];
  }

  /** Digits with at most one point among them parse as their magnitude. */
  lemma MagnitudeOfParts(body: string, whole: string, fraction: string)
    requires AllDigits(whole) && AllDigits(fraction) && |whole| + |fraction| > 0
    requires body == whole + "." + fraction || (fraction == "" && body == whole)
    ensures AllDigits(whole + fraction)
    ensures ParseMagnitude(body) == Some(Decimal(DigitsValue(whole + fraction), |fraction|))
  {
    assert '.' !in whole && '.' !in fraction by {
      assert !IsDigit('.');
    }
    DigitsValueAppend(whole, fraction);
    if body == whole + "." + fraction {
      assert Join([whole, fraction], '.') == body;
      SplitJoin([whole, fraction], '.');
    } else {
      SplitJoin([whole], '.');
      assert whole + fraction == whole;
    }
  }

  /** A sign before a magnitude is read as the sign of the number. */
  lemma ParseSigned(t: string, sign: string, body: string)
    requires IsSign(sign) && t == sign + body
    requires body != [] && body[0] != '-' && body[0] != '+'
    requires ParseMagnitude(body).Some?
    ensures ParseNumeral(t)
            == Some(Decimal(SignOf(sign) * ParseMagnitude(body).value.digits, ParseMagnitude(body).value.places))
  {
    if sign == "" {
      assert t == body;
    } else {
      assert t[0] == sign[0] && t[1..] == body;
    }
  }

  /** What `float` reads, the string spells. */
  lemma ParsedSpells(t: string, d: Decimal)
    requires ParseNumeral(t) == Some(d)
    ensures Spells(t, d)
  {
    var sign := if t[0] == '-' then "-" else if t[0] == '+' then "+" else "";
    var body := t[|sign|..];
    assert t == sign + body;
    var whole, fraction := MagnitudeParts(body);
    assert body != [] && body[0] != '-' && body[0] != '+' by {
      if whole != [] {
        assert body[0] == whole[0];
      }
    }
    ParseSigned(t, sign, body);
    assert SpellsAs(t, d, sign, whole, fraction);
  }

  /** What the string spells, `float` reads. */
  lemma SpelledParses(t: string, d: Decimal)
    requires Spells(t, d)
    ensures ParseNumeral(t) == Some(d)
  {
    var sign, whole, fraction :| SpellsAs(t, d, sign, whole, fraction);
    SpelledAsParses(t, d, sign, whole, fraction);
  }

  lemma SpelledAsParses(t: string, d: Decimal, sign: string, whole: string, fraction: string)
    requires SpellsAs(t, d, sign, whole, fraction)
    ensures ParseNumeral(t) == Some(d)
  {
    var body := if t == sign + (whole + "." + fraction) then whole + "." + fraction else whole;
    MagnitudeOfParts(body, whole, fraction);
    assert body != [] && body[0] != '-' && body[0] != '+' by {
      if whole != [] {
        assert body[0] == whole[0];
      }
    }
    ParseSigned(t, sign, body);
  }

  /** `float(s)` reads `d` exactly when `s`, stripped of surrounding whitespace, spells
      `d`. */
  lemma ParseFloatSpells(s: string, d: Decimal)
    ensures ParseFloat(s) == Some(d) <==> Spells(Strip(s), d)
  {
    if ParseFloat(s) == Some(d) {
      ParsedSpells(Strip(s), d);
    }
    if Spells(Strip(s), d) {
      SpelledParses(Strip(s), d);
    }
  }

  /** One more trailing zero digit does not change a decimal's value. */
  lemma ValueScaled(k: int, places: nat)
    ensures Decimal(k * 10, places + 1).Value() == Decimal(k, places).Value()
  {
    assert Pow10(places + 1) == 10.0 * Pow10(places);
  }

  /** The printed form of a whole decimal: its digits, then ".0". */
  lemma ShowWholeParts(d: Decimal) returns (whole: string, fraction: string, k: int)
    requires Normalize(d).places == 0
    ensures AllDigits(whole) && AllDigits(fraction) && |whole| > 0
    ensures AllDigits(whole + fraction)
    ensures ShowDecimal(d) == (if k < 0 then "-" else "") + (whole + "." + fraction)
    ensures DigitsValue(whole + fraction) == Abs(k)
    ensures Decimal(k, |fraction|).Value() == d.Value()
  {
    var n := Normalize(d);
    var mag := Abs(n.digits);
    whole, fraction := NatToString(mag), "0";
    k := n.digits * 10;
    DigitsValueOfNatToString(mag);
    DigitsValueAppend(whole, "0");
    assert Pow10Nat(1) == 10;
    assert Abs(k) == mag * 10;
    ValueScaled(n.digits, 0);
  }

  /** The printed form of a decimal with places: its padded digits, split at the point. */
  lemma ShowFractionParts(d: Decimal) returns (whole: string, fraction: string, k: int)
    requires Normalize(d).places > 0
    ensures AllDigits(whole) && AllDigits(fraction) && |whole| > 0
    ensures AllDigits(whole + fraction)
    ensures ShowDecimal(d) == (if k < 0 then "-" else "") + (whole + "." + fraction)
    ensures DigitsValue(whole + fraction) == Abs(k)
    ensures Decimal(k, |fraction|).Value() == d.Value()
  {
    var n := Normalize(d);
    var p := PaddedDigits(n);
    var cut := |p| - n.places;
    whole, fraction := p[..cut], p[cut..];
    k := n.digits;
    assert whole + fraction == p;
  }

  /** Parsing a printed float gives back its value: `float(repr(x)) == x`. */
  lemma ParseShowDecimal(d: Decimal)
    ensures ParseFloat(ShowDecimal(d)).Some?
    ensures ParseFloat(ShowDecimal(d)).value.Value() == d.Value()
  {
    StripUnpadded(ShowDecimal(d));
    ParseNumeralShow(d);
  }

  lemma ParseNumeralShow(d: Decimal)
    ensures ParseNumeral(ShowDecimal(d)).Some?
    ensures ParseNumeral(ShowDecimal(d)).value.Value() == d.Value()
  {
    var whole, fraction, k;
    if Normalize(d).places == 0 {
      whole, fraction, k := ShowWholeParts(d);
    } else {
      whole, fraction, k := ShowFractionParts(d);
    }
    if k < 0 {
      ParseShownNegative(whole, fraction);
    } else {
      assert ShowDecimal(d) == whole + "." + fraction;
      ParseShownUnsigned(whole, fraction);
    }
  }
}
