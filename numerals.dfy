/** Decimal text and values: std::to_string of a double (the "%f" format,
    six digits after the point), which tokenize uses to substitute constants
    and variables, and std::stof, which evaluatePostfix uses to read numeric
    tokens back. */
module Numerals {
  import opened Results
  import opened Operators

  predicate AllDigits(s: string) {
    forall i :: 0 <= i < |s| ==> IsDigit(s[i])
  }

  function DigitChar(d: nat): char
    requires d < 10
  {
    ('0' as int + d) as char
  }

  function DigitValue(c: char): nat
    requires IsDigit(c)
  {
    c as int - '0' as int
  }

  function Pow10(k: nat): (p: nat)
    ensures p > 0
  {
    if k == 0 then 1 else 10 * Pow10(k - 1)
  }

  /** The number a string of decimal digits denotes. */
  function Value(s: string): nat
    requires AllDigits(s)
  {
    if s == [] then 0 else Value(s[..|s| - 1]) * 10 + DigitValue(s[|s| - 1])
  }

  /** Decimal digits of n without leading zeros. */
  function Digits(n: nat): (s: string)
    ensures |s| > 0 && AllDigits(s)
    ensures Value(s) == n
  {
    if n < 10 then [DigitChar(n)]
    else
      var s := Digits(n / 10) + [DigitChar(n % 10)];
      assert s[..|s| - 1] == Digits(n / 10);
      s
  }

  /** Exactly `width` decimal digits of n, padded with leading zeros. */
  function PadDigits(n: nat, width: nat): (s: string)
    requires n < Pow10(width)
    ensures |s| == width && AllDigits(s)
    ensures Value(s) == n
  {
    if width == 0 then []
    else
      var s := PadDigits(n / 10, width - 1) + [DigitChar(n % 10)];
      assert s[..|s| - 1] == PadDigits(n / 10, width - 1);
      s
  }

  /** |v| * 10^6 rounded to the nearest integer, an exact half to the even
      neighbour, as "%f" rounds a tie. */
  function Scaled(v: real): nat {
    var x := (if v < 0.0 then -v else v) * 1000000.0;
    var f := x.Floor;
    var d := x - f as real;
    if d < 0.5 || (d == 0.5 && f % 2 == 0) then f else f + 1
  }

  /** Scaled(v) is within a half of |v| * 10^6, any integer strictly nearer
      than a half is Scaled(v), and of two equally near integers Scaled(v) is
      the even one. */
  lemma ScaledNearest(v: real, k: int)
    ensures var x := (if v < 0.0 then -v else v) * 1000000.0;
            && -0.5 <= Scaled(v) as real - x <= 0.5
            && (-0.5 < k as real - x < 0.5 ==> k == Scaled(v))
            && ((Scaled(v) as real - x == 0.5 || x - Scaled(v) as real == 0.5) ==> Scaled(v) % 2 == 0)
  {
  }

  /** 1/128 lies exactly half-way between 0.007812 and 0.007813, and renders
      as the even one. */
  lemma TieToEvenExample()
    ensures Scaled(0.0078125) == 7812
    ensures Render(0.0078125) == "0.007812"
  {
    TieScaled();
    RenderParts(0.0078125, 7812);
    assert 7812 / 1000000 == 0 && 7812 % 1000000 == 7812;
    assert Signed(false) + Digits(0) + "." + PadDigits(7812, 6) == "0.007812" by {
      TiePadded();
      assert Digits(0) == "0";
    }
  }

  /** The three parts Render(v) is made of, for n == Scaled(v). */
  lemma RenderParts(v: real, n: nat)
    requires n == Scaled(v)
    ensures Render(v) == Signed(v < 0.0) + Digits(n / 1000000) + "." + PadDigits(n % 1000000, 6)
  {
  }

  lemma TieScaled()
    ensures Scaled(0.0078125) == 7812
  {
    assert (0.0078125 * 1000000.0).Floor == 7812;
  }

  lemma TiePadded()
    ensures PadDigits(7812, 6) == "007812"
  {
    var z := PadDigits(0, 2);
    assert z == "00" by {
      PadStep(0, 2, 0, 0);
      PadStep(0, 1, 0, 0);
    }
    PadStep(7, 3, 0, 7);
    PadStep(78, 4, 7, 8);
    PadStep(781, 5, 78, 1);
    PadStep(7812, 6, 781, 2);
  }

  /** One step of PadDigits, with the quotient and the last digit given. */
  lemma PadStep(n: nat, width: nat, q: nat, d: nat)
    requires width > 0 && n < Pow10(width) && n == 10 * q + d && d < 10
    ensures q < Pow10(width - 1)
    ensures PadDigits(n, width) == PadDigits(q, width - 1) + [DigitChar(d)]
  {
    assert n / 10 == q && n % 10 == d;
  }

  /** std::to_string(v): an optional '-', the whole part, '.', six digits. */
  function Render(v: real): (s: string)
    ensures |s| > 0 && NoSpace(s) && IsNumber(s)
    ensures (v < 0.0) == (s[0] == '-')
  {
    var n := Scaled(v);
    var whole, frac := Digits(n / 1000000), PadDigits(n % 1000000, 6);
    var s := Signed(v < 0.0) + whole + "." + frac;
    var dot := |s| - 7;
    assert s[dot] == '.';
    s
  }

  /** The value Render(v) denotes: v rounded to six decimals. */
  function Rounded(v: real): real {
    var m := Scaled(v) as real / 1000000.0;
    if v < 0.0 then -m else m
  }

  /** The longest prefix of s made of digits. */
  function LeadingDigits(s: string): (d: string)
    ensures AllDigits(d) && |d| <= |s|
  {
    if s != [] && IsDigit(s[0]) then [s[0]] + LeadingDigits(s[1..]) else []
  }

  /** LeadingDigits stops at the first character that is not a digit. */
  lemma {:induction false} LeadingDigitsLongest(s: string)
    ensures LeadingDigits(s) <= s
    ensures |LeadingDigits(s)| < |s| ==> !IsDigit(s[|LeadingDigits(s)|])
  {
    if s != [] && IsDigit(s[0]) {
      LeadingDigitsLongest(s[1..]);
      assert s == [s[0]] + s[1..];
    }
  }

  /** std::stof: an optional sign, digits, optionally '.' and more digits,
      needing at least one digit; whatever follows is ignored. No digit at
      all throws std::invalid_argument, here None. A numeral starting with a
      digit is read, and only a leading '-' can make the value negative. */
  function ParseNumber(t: string): (r: Option<real>)
    ensures |t| > 0 && IsDigit(t[0]) ==> r.Some? && r.value >= 0.0
    ensures r.Some? && r.value < 0.0 ==> |t| > 0 && t[0] == '-'
    ensures r.Some? && |t| > 0 && t[0] == '-' ==> r.value <= 0.0
  {
    var neg := |t| > 0 && t[0] == '-';
    var body := if |t| > 0 && (t[0] == '-' || t[0] == '+') then t[1..] else t;
    var r := ParseMagnitude(body);
    MagnitudeSign(body);
    if r.None? then None else Some(if neg then -r.value else r.value)
  }

  /** The unsigned part of a numeral: digits, then optionally '.' and digits,
      read as all the digits shifted right by the number after the point. */
  function ParseMagnitude(body: string): Option<real> {
    var whole := LeadingDigits(body);
    var rest := body[|whole|..];
    var frac := if |rest| > 0 && rest[0] == '.' then LeadingDigits(rest[1..]) else [];
    if |whole| + |frac| == 0 then None
    else Some(Shift(Value(whole + frac) as real, |frac|))
  }

  /** A numeral starting with a digit has a magnitude, and no magnitude is
      negative. */
  lemma MagnitudeSign(body: string)
    ensures |body| > 0 && IsDigit(body[0]) ==> ParseMagnitude(body).Some?
    ensures ParseMagnitude(body).Some? ==> ParseMagnitude(body).value >= 0.0
  {
    var whole := LeadingDigits(body);
    var rest := body[|whole|..];
    var frac := if |rest| > 0 && rest[0] == '.' then LeadingDigits(rest[1..]) else [];
    if |whole| + |frac| > 0 {
      ShiftNonNegative(Value(whole + frac) as real, |frac|);
    }
  }

  lemma {:induction false} ShiftNonNegative(x: real, k: nat)
    requires x >= 0.0
    ensures Shift(x, k) >= 0.0
  {
    if k > 0 {
      ShiftNonNegative(x, k - 1);
    }
  }

  /** std::stof throws on a token that holds no digit: a numeral it reads
      has a digit at the front, or right after a leading sign, a point, or
      a sign and a point. */
  lemma ParseNeedsDigit(t: string)
    requires ParseNumber(t).Some?
    ensures exists i :: 0 <= i < |t| && IsDigit(t[i])
  {
    var body := if |t| > 0 && (t[0] == '-' || t[0] == '+') then t[1..] else t;
    var k := if |t| > 0 && (t[0] == '-' || t[0] == '+') then 1 else 0;
    var whole := LeadingDigits(body);
    var rest := body[|whole|..];
    LeadingDigitsLongest(body);
    if |whole| > 0 {
      assert IsDigit(t[k]);
    } else {
      LeadingDigitsLongest(rest[1..]);
      assert IsDigit(t[k + 1]);
    }
  }

  /** std::stof reads "2.5" as 2.5. */
  lemma ParseDecimalExample()
    ensures ParseNumber("2.5") == Some(2.5)
  {
    assert LeadingDigits("5") == "5";
    assert LeadingDigits("2.5") == "2" by {
      assert "2.5"[1..] == ".5";
    }
    assert "2.5"[1..] == ".5" && ".5"[1..] == "5";
    assert "2" + "5" == "25";
    assert Value("25") == 25 by {
      assert "25"[..1] == "2" && "2"[..0] == [];
    }
    assert Shift(25.0, 1) == 2.5;
    assert ParseMagnitude("2.5") == Some(2.5);
  }

  /** std::stof needs no digit before the point: "-.5" is -0.5. */
  lemma ParseFractionExample()
    ensures ParseNumber("-.5") == Some(-0.5)
  {
    var t := "-.5";
    assert t[1..] == ".5" && t[0] == '-';
    FractionMagnitude();
  }

  lemma FractionMagnitude()
    ensures ParseMagnitude(".5") == Some(0.5)
  {
    PointFive();
    FiveTenths();
  }

  lemma PointFive()
    ensures ParseMagnitude(".5") == Some(Shift(5.0, 1))
  {
    var frac := "5";
    ValueFive();
    MagnitudeOfFraction(frac);
    assert "." + frac == ".5";
  }

  lemma ValueFive()
    ensures Value("5") == 5
  {
    assert "5"[..0] == [];
  }

  lemma FiveTenths()
    ensures Shift(5.0, 1) == 0.5
  {
    assert Shift(5.0, 0) == 5.0;
  }

  /** A point followed by digits is read as those digits shifted right. */
  lemma MagnitudeOfFraction(frac: string)
    requires |frac| > 0 && AllDigits(frac)
    ensures ParseMagnitude("." + frac) == Some(Shift(Value(frac) as real, |frac|))
  {
    var body := "." + frac;
    var none: string := [];
    assert LeadingDigits(body) == none;
    assert body[0..] == body && body[1..] == frac;
    LeadingDigitsStop(frac, []);
    assert frac + [] == frac && none + frac == frac;
  }

  /** std::stof reads the numeral at the front and ignores what follows:
      "7x" is 7, and "x", which holds no digit, is rejected. */
  lemma ParsePrefixExample()
    ensures ParseNumber("7x") == Some(7.0)
    ensures ParseNumber("x") == None
  {
    assert LeadingDigits("7x") == "7" by {
      assert "7x"[1..] == "x";
    }
    assert "7x"[1..] == "x";
    assert "7" + [] == "7";
    assert Value("7") == 7 by {
      assert "7"[..0] == [];
    }
    assert !IsDigit("x"[0]);
  }

  /** x divided by 10, k times. */
  function Shift(x: real, k: nat): real {
    if k == 0 then x else Shift(x, k - 1) / 10.0
  }

  /** Six places after the point are a division by 10^6. */
  lemma ShiftSix(x: real)
    ensures Shift(x, 6) == x / 1000000.0
  {
    assert Shift(x, 1) == x / 10.0;
    assert Shift(x, 2) == x / 100.0;
    assert Shift(x, 3) == x / 1000.0;
    assert Shift(x, 4) == x / 10000.0;
    assert Shift(x, 5) == x / 100000.0;
  }

  lemma {:induction false} ValueAppend(a: string, b: string)
    requires AllDigits(a) && AllDigits(b)
    ensures AllDigits(a + b)
    ensures Value(a + b) == Value(a) * Pow10(|b|) + Value(b)
  {
    if b == [] {
      assert a + b == a;
    } else {
      var b' := b[..|b| - 1];
      var d := DigitValue(b[|b| - 1]);
      assert (a + b)[..|a + b| - 1] == a + b';
      assert (a + b)[|a + b| - 1] == b[|b| - 1];
      ValueAppend(a, b');
      var x, p, y := Value(a), Pow10(|b'|), Value(b');
      assert Value(a + b) == (x * p + y) * 10 + d;
      assert Value(b) == y * 10 + d;
      assert Pow10(|b|) == p * 10;
      ShiftDigit(x, p, y);
    }
  }

  lemma ShiftDigit(x: int, p: int, y: int)
    ensures (x * p + y) * 10 == x * (p * 10) + y * 10
  {
  }

  lemma {:induction false} LeadingDigitsStop(d: string, rest: string)
    requires AllDigits(d)
    requires rest == [] || !IsDigit(rest[0])
    ensures LeadingDigits(d + rest) == d
  {
    if d != [] {
      assert (d + rest)[1..] == d[1..] + rest;
      LeadingDigitsStop(d[1..], rest);
    } else {
      assert d + rest == rest;
    }
  }

  /** A string of decimal digits, leading zeros included, reads as the
      number it spells. */
  lemma ReadDigits(d: string)
    requires |d| > 0 && AllDigits(d)
    ensures ParseNumber(d) == Some(Value(d) as real)
  {
    MagnitudeOfDigits(d);
    PositiveParse(d, Value(d) as real);
  }

  /** The decimal numeral of n reads back as n. */
  lemma DigitsRoundTrip(n: nat)
    ensures ParseNumber(Digits(n)) == Some(n as real)
  {
    ReadDigits(Digits(n));
  }

  /** "007" reads as 7. */
  lemma LeadingZerosExample()
    ensures ParseNumber("007") == Some(7.0)
  {
    var d := "007";
    ReadDigits(d);
    ValueOfZeroZeroSeven();
  }

  lemma ValueOfZeroZeroSeven()
    ensures Value("007") == 7
  {
    var d := "007";
    assert d[..2] == "00" && d[..1] == "0" && d[..0] == [];
    assert Value(d[..1]) == 0;
    assert Value(d[..2]) == 0;
  }

  lemma MagnitudeOfDigits(d: string)
    requires AllDigits(d) && |d| > 0
    ensures ParseMagnitude(d) == Some(Value(d) as real)
  {
    LeadingDigitsStop(d, []);
    assert d + [] == d;
    assert LeadingDigits(d) == d;
    assert d[|d|..] == [];
  }

  /** A numeral that starts with a digit is read as its magnitude. */
  lemma PositiveParse(body: string, m: real)
    requires |body| > 0 && IsDigit(body[0]) && ParseMagnitude(body) == Some(m)
    ensures ParseNumber(body) == Some(m)
  {
  }

  /** A '-' in front negates the magnitude. */
  lemma NegativeParse(body: string, m: real)
    requires ParseMagnitude(body) == Some(m)
    ensures ParseNumber("-" + body) == Some(-m)
  {
    assert ("-" + body)[1..] == body;
  }

  /** A numeral of the shape Render produces reads back as its digits
      over a power of ten. */
  lemma ParseFixedPoint(neg: bool, whole: string, frac: string, m: real, s: string)
    requires |whole| > 0 && AllDigits(whole) && AllDigits(frac) && AllDigits(whole + frac)
    requires m == Shift(Value(whole + frac) as real, |frac|)
    requires s == Signed(neg) + whole + "." + frac
    ensures ParseNumber(s) == Some(if neg then -m else m)
  {
    MagnitudeOfFixedPoint(whole, frac);
    var body := whole + ("." + frac);
    Regroup(Signed(neg), whole, ".", frac);
    if neg {
      NegativeParse(body, m);
    } else {
      assert Signed(neg) + body == body;
      assert body[0] == whole[0];
      PositiveParse(body, m);
    }
  }

  lemma Regroup(a: string, b: string, c: string, d: string)
    ensures a + b + c + d == a + (b + (c + d))
  {
  }

  lemma MagnitudeOfFixedPoint(whole: string, frac: string)
    requires |whole| > 0 && AllDigits(whole) && AllDigits(frac)
    ensures AllDigits(whole + frac)
    ensures ParseMagnitude(whole + ("." + frac)) == Some(Shift(Value(whole + frac) as real, |frac|))
  {
    ValueAppend(whole, frac);
    var body := whole + ("." + frac);
    LeadingDigitsStop(whole, "." + frac);
    assert body[|whole|..] == "." + frac;
    assert ("." + frac)[1..] == frac;
    LeadingDigitsStop(frac, []);
    assert frac + [] == frac;
  }

  function Signed(neg: bool): string {
    if neg then "-" else ""
  }

  /** The whole and fractional digits Render prints for a scaled value n
      spell n itself, six of them after the point. */
  lemma FixedPointDigits(n: nat)
    ensures var whole, frac := Digits(n / 1000000), PadDigits(n % 1000000, 6);
            AllDigits(whole + frac) && Value(whole + frac) == n && |frac| == 6
  {
    var q, r := n / 1000000, n % 1000000;
    var whole, frac := Digits(q), PadDigits(r, 6);
    ValueAppend(whole, frac);
    assert Pow10(6) == 1000000;
    assert Value(whole + frac) == q * 1000000 + r;
  }

  /** Render's digits for a scaled value n, shifted six places, are n / 10^6. */
  lemma RenderedDigits(n: nat)
    ensures var whole, frac := Digits(n / 1000000), PadDigits(n % 1000000, 6);
            AllDigits(whole + frac) && n as real / 1000000.0 == Shift(Value(whole + frac) as real, |frac|)
  {
    FixedPointDigits(n);
    ShiftSix(n as real);
  }

  /** Render's text for a sign and a scaled value reads back as that
      value over 10^6. */
  lemma ParseRendered(neg: bool, n: nat, m: real, s: string)
    requires m == n as real / 1000000.0
    requires s == Signed(neg) + Digits(n / 1000000) + "." + PadDigits(n % 1000000, 6)
    ensures ParseNumber(s) == Some(if neg then -m else m)
  {
    RenderedDigits(n);
    ParseFixedPoint(neg, Digits(n / 1000000), PadDigits(n % 1000000, 6), m, s);
  }

  /** Substituting a value as text and reading it back gives the value
      rounded to six decimals: std::to_string and std::stof round-trip
      exactly on values with at most six decimals, and lose the rest. */
  lemma RenderRoundTrip(v: real)
    ensures ParseNumber(Render(v)) == Some(Rounded(v))
  {
    RoundTripAt(v, Scaled(v), Render(v));
  }

  lemma RoundTripAt(v: real, n: nat, s: string)
    requires n == Scaled(v)
    requires s == Signed(v < 0.0) + Digits(n / 1000000) + "." + PadDigits(n % 1000000, 6)
    ensures ParseNumber(s) == Some(Rounded(v))
  {
    var m := n as real / 1000000.0;
    RoundedIs(v, n, m);
    ParseRendered(v < 0.0, n, m, s);
  }

  lemma RoundedIs(v: real, n: nat, m: real)
    requires n == Scaled(v) && m == n as real / 1000000.0
    ensures Rounded(v) == if v < 0.0 then -m else m
  {
  }

}
