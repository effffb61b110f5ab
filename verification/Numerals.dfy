/**
Numbers as a user may type them: a sign, digits with or without a point, an exponent.  The
stream reads them for what they are worth, and reads nothing else.
*/
module Numerals {
  import opened TextStream
  import opened Decimal

  datatype Sign = NoSign | Plus | Minus

  datatype Exponent = NoExponent | Exponent(upper: bool, sign: Sign, digits: string)

  /** The parts of a number; the digits behind the point are empty if there is none. */
  datatype Numeral = Numeral(sign: Sign, whole: string, point: bool, frac: string, exponent: Exponent)

  predicate Valid(n: Numeral) {
    && AllDigits(n.whole) && AllDigits(n.frac) && n.whole + n.frac != "" && (n.frac != "" ==> n.point)
    && (n.exponent.Exponent? ==> n.exponent.digits != "" && AllDigits(n.exponent.digits))
  }

  function SignText(s: Sign): string {
    match s
    case NoSign => ""
    case Plus => "+"
    case Minus => "-"
  }

  function ExponentText(e: Exponent): string {
    match e
    case NoExponent => ""
    case Exponent(upper, sign, digits) => (if upper then "E" else "e") + (SignText(sign) + digits)
  }

  /** What stands behind the digits before the point. */
  function Tail(n: Numeral): string {
    if n.point then "." + (n.frac + ExponentText(n.exponent)) else ExponentText(n.exponent)
  }

  function Text(n: Numeral): string {
    SignText(n.sign) + (n.whole + Tail(n))
  }

  // ---------------------------------------------------------------- what it is worth

  function ExponentValue(e: Exponent): int {
    match e
    case NoExponent => 0
    case Exponent(_, sign, digits) => if sign == Minus then 0 - Number(digits) else Number(digits)
  }

  /** Without its sign: the digits, shifted by the exponent and the place of the point. */
  function Bare(n: Numeral): real {
    Shift(Number(n.whole + n.frac) as real, ExponentValue(n.exponent) - |n.frac|)
  }

  function Worth(n: Numeral): real {
    if n.sign == Minus then 0.0 - Bare(n) else Bare(n)
  }

  /** Ten to the power e. */
  function Power(e: int): real
    decreases if e < 0 then -e else e
  {
    if e == 0 then 1.0 else if e > 0 then 10.0 * Power(e - 1) else Power(e + 1) / 10.0
  }

  lemma Regroup(x: real, y: real, z: real)
    ensures (x * y) * z == x * (y * z)
  {
  }

  lemma {:induction false} ShiftIs(x: real, e: int)
    ensures Shift(x, e) == x * Power(e)
    decreases if e < 0 then -e else e
  {
    if e > 0 {
      ShiftIs(x * 10.0, e - 1);
      Regroup(x, 10.0, Power(e - 1));
    } else if e < 0 {
      ShiftIs(x / 10.0, e + 1);
      Regroup(x, 0.1, Power(e + 1));
    }
  }

  lemma {:induction false} ShiftPlus(x: real, y: real, e: int)
    ensures Shift(x + y, e) == Shift(x, e) + Shift(y, e)
    decreases if e < 0 then -e else e
  {
    if e > 0 {
      ShiftPlus(x * 10.0, y * 10.0, e - 1);
    } else if e < 0 {
      ShiftPlus(x / 10.0, y / 10.0, e + 1);
    }
  }

  /** One place more and the rest. */
  lemma ShiftUp(x: real, e: int)
    ensures Shift(x * 10.0, e) == Shift(x, e + 1)
  {
    assert (x * 10.0) / 10.0 == x;
  }

  lemma {:induction false} ShiftShift(x: real, a: nat, e: int)
    ensures Shift(Shift(x, a), e) == Shift(x, a + e)
    decreases a
  {
    if a > 0 {
      ShiftShift(x * 10.0, a - 1, e);
      ShiftUp(x, a - 1 + e);
    }
  }

  lemma {:induction false} NumberOfBoth(a: string, b: string)
    ensures Number(a + b) as real == Shift(Number(a) as real, |b|) + Number(b) as real
  {
    if b == "" {
      assert a + b == a;
    } else {
      var c, d := b[..|b| - 1], b[|b| - 1];
      assert (a + b)[..|a + b| - 1] == a + c && (a + b)[|a + b| - 1] == d;
      NumberOfBoth(a, c);
      ShiftTen(Number(a) as real, |c|);
    }
  }

  lemma {:induction false} ShiftTen(x: real, n: nat)
    ensures Shift(x, n + 1) == Shift(x, n) * 10.0
    decreases n
  {
    if n > 0 {
      ShiftTen(x * 10.0, n - 1);
    }
  }

  /** What is before the point counts in full, what is behind it for as many places less as there
      are digits; the exponent shifts both. */
  lemma BareIs(n: Numeral)
    ensures var e := ExponentValue(n.exponent);
      Bare(n) == Shift(Number(n.whole) as real, e) + Shift(Number(n.frac) as real, e - |n.frac|)
  {
    var e, f := ExponentValue(n.exponent), |n.frac|;
    NumberOfBoth(n.whole, n.frac);
    ShiftPlus(Shift(Number(n.whole) as real, f), Number(n.frac) as real, e - f);
    ShiftShift(Number(n.whole) as real, f, e - f);
  }

  // ---------------------------------------------------------------- reading

  /** Text that cannot go on with a number. */
  predicate Ends(rest: string) {
    rest == "" || (!IsDigit(rest[0]) && rest[0] != '.' && rest[0] != 'e' && rest[0] != 'E')
  }

  lemma SignedText(sign: Sign, u: string)
    requires u == "" || (u[0] != '+' && u[0] != '-')
    ensures var t := SignText(sign) + u;
      && Unsigned(t) == u && (Signed(t) && t[0] == '-' <==> sign == Minus)
  {
    match sign
    case NoSign => assert "" + u == u;
    case Plus => assert ("+" + u)[1..] == u;
    case Minus => assert ("-" + u)[1..] == u;
  }

  lemma DigitsRead(digits: string, rest: string)
    requires AllDigits(digits) && (rest == "" || !IsDigit(rest[0]))
    ensures var u := digits + rest; DigitCount(u) == |digits| && u[..|digits|] == digits && u[|digits|..] == rest
  {
    DigitCountOf(digits, rest);
  }

  /** An exponent, its letter, sign and digits. */
  lemma ExponentPartsRead(letter: char, sign: Sign, digits: string, rest: string)
    requires (letter == 'e' || letter == 'E') && digits != "" && AllDigits(digits) && (rest == "" || !IsDigit(rest[0]))
    ensures ReadExponent([letter] + (SignText(sign) + (digits + rest)))
      == Read(if sign == Minus then 0 - Number(digits) else Number(digits), true, rest)
  {
    var t := SignText(sign) + (digits + rest);
    assert ([letter] + t)[0] == letter && ([letter] + t)[1..] == t;
    assert (digits + rest)[0] == digits[0];
    SignedText(sign, digits + rest);
    DigitsRead(digits, rest);
  }

  lemma LetterFirst(letter: string, a: string, b: string, rest: string)
    ensures (letter + (a + b)) + rest == letter + (a + (b + rest))
  {
  }

  lemma ExponentRead(e: Exponent, rest: string)
    requires Ends(rest) && (e.Exponent? ==> e.digits != "" && AllDigits(e.digits))
    ensures ReadExponent(ExponentText(e) + rest) == Read(ExponentValue(e), true, rest)
    ensures NoDigitFirst(ExponentText(e) + rest)
  {
    match e
    case NoExponent => assert "" + rest == rest;
    case Exponent(upper, sign, digits) =>
      LetterFirst(if upper then "E" else "e", SignText(sign), digits, rest);
      ExponentPartsRead(if upper then 'E' else 'e', sign, digits, rest);
  }

  predicate NoDigitFirst(s: string) { s == "" || (!IsDigit(s[0]) && s[0] != '.') }

  lemma PointRead(whole: string, frac: string, rest: string)
    requires AllDigits(whole) && AllDigits(frac) && (rest == "" || !IsDigit(rest[0]))
    ensures Magnitude(whole + ("." + (frac + rest))) == Scaled(whole, frac, rest)
  {
    var tail := "." + (frac + rest);
    DigitsRead(whole, tail);
    assert (whole + tail)[|whole|] == '.';
    assert (whole + tail)[|whole| + 1..] == frac + rest;
    DigitsRead(frac, rest);
  }

  /** Digits without a point are the digits before it. */
  lemma NoPointRead(whole: string, rest: string)
    requires AllDigits(whole) && (rest == "" || (!IsDigit(rest[0]) && rest[0] != '.'))
    ensures Magnitude(whole + rest) == Scaled(whole, "", rest)
  {
    DigitsRead(whole, rest);
  }

  lemma TailParts(n: Numeral, rest: string)
    ensures var behind := ExponentText(n.exponent) + rest;
      (n.whole + Tail(n)) + rest == n.whole + if n.point then "." + (n.frac + behind) else behind
  {
    var e := ExponentText(n.exponent);
    assert (n.whole + Tail(n)) + rest == n.whole + (Tail(n) + rest);
    assert ("." + (n.frac + e)) + rest == "." + (n.frac + (e + rest));
  }

  lemma TailRead(n: Numeral, rest: string)
    requires Valid(n) && Ends(rest)
    ensures Magnitude((n.whole + Tail(n)) + rest) == Scaled(n.whole, n.frac, ExponentText(n.exponent) + rest)
  {
    var behind := ExponentText(n.exponent) + rest;
    ExponentRead(n.exponent, rest);
    TailParts(n, rest);
    if n.point {
      PointRead(n.whole, n.frac, behind);
    } else {
      NoPointRead(n.whole, behind);
    }
  }

  lemma FirstChar(n: Numeral, rest: string)
    requires Valid(n)
    ensures var u := (n.whole + Tail(n)) + rest; u != "" && (IsDigit(u[0]) || u[0] == '.')
    ensures Text(n) != "" && !IsSpace(Text(n)[0])
  {
    var u := (n.whole + Tail(n)) + rest;
    if n.whole == "" {
      assert n.point && u[0] == '.';
    } else {
      assert u[0] == n.whole[0];
    }
  }

  lemma BareRead(n: Numeral, rest: string)
    requires Valid(n) && Ends(rest)
    ensures Magnitude((n.whole + Tail(n)) + rest) == Read(Bare(n), true, rest)
  {
    TailRead(n, rest);
    BareScaled(n, rest);
  }

  lemma BareScaled(n: Numeral, rest: string)
    requires Valid(n) && Ends(rest)
    ensures Scaled(n.whole, n.frac, ExponentText(n.exponent) + rest) == Read(Bare(n), true, rest)
  {
    ExponentRead(n.exponent, rest);
    ScaledTo(n, ExponentText(n.exponent) + rest, rest);
  }

  lemma ScaledTo(n: Numeral, behind: string, rest: string)
    requires n.whole + n.frac != "" && ReadExponent(behind) == Read(ExponentValue(n.exponent), true, rest)
    ensures Scaled(n.whole, n.frac, behind) == Read(Bare(n), true, rest)
  {
  }

  lemma SignApart(sign: string, u: string, rest: string)
    ensures (sign + u) + rest == sign + (u + rest)
  {
  }

  lemma SignedRead(sign: Sign, u: string)
    requires u == "" || (u[0] != '+' && u[0] != '-')
    ensures RealAt(SignText(sign) + u) == WithSign(sign == Minus, Magnitude(u))
  {
    SignedText(sign, u);
  }

  /** A number is read for what it is worth, and what follows it is left. */
  lemma NumeralAt(n: Numeral, rest: string)
    requires Valid(n) && Ends(rest)
    ensures RealAt(Text(n) + rest) == Read(Worth(n), true, rest)
  {
    FirstChar(n, rest);
    SignApart(SignText(n.sign), n.whole + Tail(n), rest);
    SignedRead(n.sign, (n.whole + Tail(n)) + rest);
    BareRead(n, rest);
  }

  /** An e without digits behind it spoils the number in front of it. */
  lemma ExponentMissing(n: Numeral, letter: char, sign: Sign, rest: string)
    requires Valid(n) && n.exponent.NoExponent? && (letter == 'e' || letter == 'E')
    requires rest == "" || (!IsDigit(rest[0]) && rest[0] != '+' && rest[0] != '-')
    ensures !RealAt(Text(n) + ([letter] + (SignText(sign) + rest))).good
  {
    var behind := [letter] + (SignText(sign) + rest);
    FirstChar(n, behind);
    SignApart(SignText(n.sign), n.whole + Tail(n), behind);
    SignedRead(n.sign, (n.whole + Tail(n)) + behind);
    TailParts(n, behind);
    assert "" + behind == behind;
    if n.point {
      PointRead(n.whole, n.frac, behind);
    } else {
      NoPointRead(n.whole, behind);
    }
    NoExponentRead(letter, sign, rest);
  }

  lemma NoExponentRead(letter: char, sign: Sign, rest: string)
    requires letter == 'e' || letter == 'E'
    requires rest == "" || (!IsDigit(rest[0]) && rest[0] != '+' && rest[0] != '-')
    ensures !ReadExponent([letter] + (SignText(sign) + rest)).good
  {
    var t := SignText(sign) + rest;
    assert ([letter] + t)[0] == letter && ([letter] + t)[1..] == t;
    SignedText(sign, rest);
  }

  /** White space of any kind, at least one character of it. */
  predicate Blank(s: string) {
    s != "" && forall i :: 0 <= i < |s| ==> s[i] in [' ', '\t', '\n', 11 as char, 12 as char, '\r']
  }

  lemma {:induction false} SkipBlank(gap: string, s: string)
    requires (gap == "" || Blank(gap)) && (s == "" || !IsSpace(s[0]))
    ensures SkipSpace(gap + s) == s
  {
    if gap == "" {
      assert gap + s == s;
    } else {
      assert IsSpace(gap[0]) && (gap + s)[1..] == gap[1..] + s;
      SkipBlank(gap[1..], s);
    }
  }

  lemma ReadNumeral(gap: string, n: Numeral, rest: string)
    requires (gap == "" || Blank(gap)) && Valid(n) && Ends(rest)
    ensures ReadReal(gap + (Text(n) + rest)) == Read(Worth(n), true, rest)
  {
    FirstChar(n, rest);
    assert (Text(n) + rest)[0] == Text(n)[0];
    SkipBlank(gap, Text(n) + rest);
    NumeralAt(n, rest);
  }

  // ---------------------------------------------------------------- integers

  /** An integer as it is usually typed. */
  function Integer(minus: bool, n: nat): Numeral {
    Numeral(if minus then Minus else NoSign, Digits(n), false, "", NoExponent)
  }

  lemma IntegerWorth(minus: bool, n: nat)
    ensures Valid(Integer(minus, n)) && Text(Integer(minus, n)) == (if minus then "-" else "") + Digits(n)
    ensures Worth(Integer(minus, n)) == if minus then 0.0 - n as real else n as real
  {
    NumberOfDigits(n);
    DigitsAreDigits(n);
    assert Digits(n) + "" == Digits(n);
  }

  /** Digits without a point or an exponent stand for the integer. */
  lemma ReadInteger(gap: string, minus: bool, n: nat, rest: string)
    requires (gap == "" || Blank(gap)) && Ends(rest)
    ensures ReadReal(gap + (((if minus then "-" else "") + Digits(n)) + rest))
      == Read(if minus then 0.0 - n as real else n as real, true, rest)
  {
    IntegerWorth(minus, n);
    ReadNumeral(gap, Integer(minus, n), rest);
  }

  // ---------------------------------------------------------------- nothing else is read

  lemma {:induction false} CountedDigits(s: string)
    ensures AllDigits(s[..DigitCount(s)]) && s == s[..DigitCount(s)] + s[DigitCount(s)..]
  {
    if s != "" && IsDigit(s[0]) {
      CountedDigits(s[1..]);
      assert s[..DigitCount(s)] == [s[0]] + s[1..][..DigitCount(s[1..])];
    }
  }

  lemma SignIs(t: string) returns (sign: Sign)
    ensures t == SignText(sign) + Unsigned(t) && (sign == Minus <==> Signed(t) && t[0] == '-')
  {
    if !Signed(t) {
      sign := NoSign;
    } else if t[0] == '-' {
      sign := Minus;
      assert t == "-" + t[1..];
    } else {
      sign := Plus;
      assert t == "+" + t[1..];
    }
  }

  lemma ExponentPartsAre(s: string) returns (sign: Sign, digits: string, rest: string)
    requires s != "" && (s[0] == 'e' || s[0] == 'E') && ReadExponent(s).good
    ensures digits != "" && AllDigits(digits)
    ensures s == [s[0]] + (SignText(sign) + (digits + rest))
    ensures ReadExponent(s) == Read(if sign == Minus then 0 - Number(digits) else Number(digits), true, rest)
  {
    var u := Unsigned(s[1..]);
    sign := SignIs(s[1..]);
    CountedDigits(u);
    digits, rest := u[..DigitCount(u)], u[DigitCount(u)..];
    assert s == [s[0]] + s[1..];
  }

  lemma ExponentIs(s: string) returns (e: Exponent)
    requires ReadExponent(s).good
    ensures e.Exponent? ==> e.digits != "" && AllDigits(e.digits)
    ensures s == ExponentText(e) + ReadExponent(s).rest && ReadExponent(s).value == ExponentValue(e)
  {
    if s == "" || (s[0] != 'e' && s[0] != 'E') {
      e := NoExponent;
      assert "" + s == s;
    } else {
      var sign, digits, rest := ExponentPartsAre(s);
      e := Exponent(s[0] == 'E', sign, digits);
      LetterFirst([s[0]], SignText(sign), digits, rest);
    }
  }

  /** The digits before and behind the point, and what follows. */
  lemma ScaledIs(sign: Sign, whole: string, point: bool, frac: string, behind: string) returns (n: Numeral)
    requires AllDigits(whole) && AllDigits(frac) && (frac != "" ==> point) && Scaled(whole, frac, behind).good
    ensures Valid(n) && n.sign == sign && n.whole == whole && n.frac == frac && n.point == point
    ensures behind == ExponentText(n.exponent) + Scaled(whole, frac, behind).rest
    ensures Scaled(whole, frac, behind).value == Bare(n)
  {
    var e := ExponentIs(behind);
    n := Numeral(sign, whole, point, frac, e);
    ScaledTo(n, behind, ReadExponent(behind).rest);
  }

  /** The digits of a magnitude with and without a point. */
  lemma MagnitudeParts(u: string) returns (whole: string, point: bool, frac: string, behind: string)
    ensures AllDigits(whole) && AllDigits(frac) && (frac != "" ==> point)
    ensures u == whole + if point then "." + (frac + behind) else behind
    ensures Magnitude(u) == Scaled(whole, frac, behind)
  {
    var count := DigitCount(u);
    CountedDigits(u);
    whole := u[..count];
    point := count < |u| && u[count] == '.';
    if point {
      var v := u[count + 1..];
      CountedDigits(v);
      frac, behind := v[..DigitCount(v)], v[DigitCount(v)..];
      assert u[count..] == "." + v;
    } else {
      frac, behind := "", u[count..];
    }
  }

  lemma MagnitudeIs(u: string, sign: Sign) returns (n: Numeral)
    requires Magnitude(u).good
    ensures Valid(n) && n.sign == sign && u == (n.whole + Tail(n)) + Magnitude(u).rest
    ensures Magnitude(u).value == Bare(n)
  {
    var whole, point, frac, behind := MagnitudeParts(u);
    n := ScaledIs(sign, whole, point, frac, behind);
    TailParts(n, Magnitude(u).rest);
  }

  /** Where the stream reads a number there is one, and it is what is read. */
  lemma OnlyNumerals(t: string) returns (n: Numeral)
    requires RealAt(t).good
    ensures Valid(n) && t == Text(n) + RealAt(t).rest && RealAt(t).value == Worth(n)
  {
    var sign := SignIs(t);
    n := MagnitudeIs(Unsigned(t), sign);
    SignApart(SignText(sign), n.whole + Tail(n), Magnitude(Unsigned(t)).rest);
  }
}
