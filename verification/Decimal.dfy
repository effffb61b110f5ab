/**
std::to_string: unsigned integers in decimal, numbers with six digits after the point.  A
double is an exact real here, so the only rounding is the one to six digits, which rounds
halves to even.
*/
module Decimal {
  import opened TextStream

  const PLACES: nat := 6

  function DigitChar(d: nat): (c: char)
    requires d < 10
    ensures IsDigit(c) && DigitValue(c) == d
  {
    ('0' as int + d) as char
  }

  function Digits(n: nat): string {
    if n < 10 then [DigitChar(n)] else Digits(n / 10) + [DigitChar(n % 10)]
  }

  /** The last digits of n, as many as width says. */
  function LastDigits(n: nat, width: nat): string {
    if width == 0 then "" else LastDigits(n / 10, width - 1) + [DigitChar(n % 10)]
  }

  /** n without its last digits. */
  function WithoutLast(n: nat, width: nat): nat {
    if width == 0 then n else WithoutLast(n / 10, width - 1)
  }

  /** The multiple of a millionth nearest to r, counted in millionths. */
  function Millionths(r: real): (q: nat)
    requires r >= 0.0
  {
    var scaled := r * 1000000.0;
    var below := scaled.Floor;
    var over := scaled - below as real;
    if over < 0.5 then below else if over > 0.5 then below + 1 else below + below % 2
  }

  /** q with a point before its last digits. */
  function PointText(minus: bool, q: nat, width: nat): string {
    (if minus then "-" else "") + (Digits(WithoutLast(q, width)) + ("." + LastDigits(q, width)))
  }

  function FixedText(r: real): string {
    PointText(r < 0.0, Millionths(if r < 0.0 then -r else r), PLACES)
  }

  function Value(minus: bool, q: nat): real {
    if minus then -(q as real / 1000000.0) else q as real / 1000000.0
  }

  /** The number that the text of r stands for. */
  function Snap(r: real): real {
    Value(r < 0.0, Millionths(if r < 0.0 then -r else r))
  }

  lemma {:induction false} DigitsAreDigits(n: nat)
    ensures Digits(n) != "" && AllDigits(Digits(n))
  {
    if n >= 10 {
      DigitsAreDigits(n / 10);
    }
  }

  /** Reading undoes printing. */
  lemma {:induction false} NumberOfDigits(n: nat)
    ensures AllDigits(Digits(n)) && Number(Digits(n)) == n
  {
    DigitsAreDigits(n);
    if n >= 10 {
      NumberOfDigits(n / 10);
      assert Digits(n)[..|Digits(n)| - 1] == Digits(n / 10);
    } else {
      assert Digits(n)[..0] == "";
    }
  }

  lemma {:induction false} LastAreDigits(n: nat, width: nat)
    ensures |LastDigits(n, width)| == width && AllDigits(LastDigits(n, width))
  {
    if width > 0 {
      LastAreDigits(n / 10, width - 1);
    }
  }

  lemma {:induction false} NumberOfParts(n: nat, width: nat)
    ensures AllDigits(Digits(WithoutLast(n, width)) + LastDigits(n, width))
    ensures Number(Digits(WithoutLast(n, width)) + LastDigits(n, width)) == n
  {
    var whole := Digits(WithoutLast(n, width));
    DigitsAreDigits(WithoutLast(n, width));
    LastAreDigits(n, width);
    if width == 0 {
      NumberOfDigits(n);
      assert whole + "" == whole;
    } else {
      NumberOfParts(n / 10, width - 1);
      var all := whole + LastDigits(n, width);
      assert all[..|all| - 1] == whole + LastDigits(n / 10, width - 1);
    }
  }

  lemma ShiftPlaces(x: real)
    ensures Shift(x, 0 - PLACES) == x / 1000000.0
  {
    assert Shift(x, -6) == Shift(x / 10.0, -5);
    assert Shift(x / 10.0, -5) == Shift(x / 100.0, -4);
    assert Shift(x / 100.0, -4) == Shift(x / 1000.0, -3);
    assert Shift(x / 1000.0, -3) == Shift(x / 10000.0, -2);
    assert Shift(x / 10000.0, -2) == Shift(x / 100000.0, -1);
    assert Shift(x / 100000.0, -1) == Shift(x / 1000000.0, 0);
  }

  /** An integer read back from its text, clamped to the type it is read into. */
  lemma ReadDigits(n: nat, rest: string, max: nat)
    requires rest == "" || !IsDigit(rest[0])
    ensures ReadUnsigned(Digits(n) + rest, max) == Read(if n <= max then n else max, n <= max, rest)
    ensures ReadUnsigned(" " + (Digits(n) + rest), max) == ReadUnsigned(Digits(n) + rest, max)
  {
    DigitsAreDigits(n);
    NumberOfDigits(n);
    UnsignedAtOf(Digits(n), rest, max);
    assert IsDigit((Digits(n) + rest)[0]);
    SkipOne(Digits(n) + rest);
  }

  lemma Reassociate(sign: string, whole: string, frac: string, rest: string)
    ensures (sign + (whole + ("." + frac))) + rest == sign + (whole + ("." + (frac + rest)))
  {
    assert ("." + frac) + rest == "." + (frac + rest);
    assert (whole + ("." + frac)) + rest == whole + (("." + frac) + rest);
  }

  /** The parts of a printed number. */
  predicate Parts(text: string, minus: bool, whole: string, frac: string, q: nat, width: nat) {
    && text == (if minus then "-" else "") + (whole + ("." + frac))
    && whole != "" && AllDigits(whole) && AllDigits(frac) && AllDigits(whole + frac)
    && |frac| == width && Number(whole + frac) == q
  }

  lemma RealAtParts(text: string, minus: bool, whole: string, frac: string, q: nat, width: nat, rest: string)
    requires Parts(text, minus, whole, frac, q, width)
    requires rest == "" || (!IsDigit(rest[0]) && rest[0] != 'e' && rest[0] != 'E')
    ensures RealAt(text + rest) == WithSign(minus, Read(Shift(q as real, 0 - width), true, rest))
  {
    RealAtOf(minus, whole, frac, rest);
    Reassociate(if minus then "-" else "", whole, frac, rest);
  }

  lemma PartsOf(minus: bool, q: nat, width: nat) returns (whole: string, frac: string)
    ensures Parts(PointText(minus, q, width), minus, whole, frac, q, width)
  {
    whole, frac := Digits(WithoutLast(q, width)), LastDigits(q, width);
    DigitsAreDigits(WithoutLast(q, width));
    LastAreDigits(q, width);
    NumberOfParts(q, width);
  }

  lemma RealAtPoint(minus: bool, q: nat, width: nat, rest: string)
    requires rest == "" || (!IsDigit(rest[0]) && rest[0] != 'e' && rest[0] != 'E')
    ensures RealAt(PointText(minus, q, width) + rest)
      == WithSign(minus, Read(Shift(q as real, 0 - width), true, rest))
  {
    var whole, frac := PartsOf(minus, q, width);
    RealAtParts(PointText(minus, q, width), minus, whole, frac, q, width, rest);
  }

  lemma SignedMillionths(minus: bool, q: nat, rest: string)
    ensures WithSign(minus, Read(Shift(q as real, 0 - PLACES), true, rest)) == Read(Value(minus, q), true, rest)
  {
    ShiftPlaces(q as real);
  }

  lemma RealAtMillionths(minus: bool, q: nat, rest: string)
    requires rest == "" || (!IsDigit(rest[0]) && rest[0] != 'e' && rest[0] != 'E')
    ensures RealAt(PointText(minus, q, PLACES) + rest) == Read(Value(minus, q), true, rest)
  {
    RealAtPoint(minus, q, PLACES, rest);
    SignedMillionths(minus, q, rest);
  }

  lemma RealAtFixed(r: real, rest: string)
    requires rest == "" || (!IsDigit(rest[0]) && rest[0] != 'e' && rest[0] != 'E')
    ensures RealAt(FixedText(r) + rest) == Read(Snap(r), true, rest)
  {
    RealAtMillionths(r < 0.0, Millionths(if r < 0.0 then -r else r), rest);
  }

  /** A number read back from its text is the rounded number. */
  lemma ReadFixed(r: real, rest: string)
    requires rest == "" || (!IsDigit(rest[0]) && rest[0] != 'e' && rest[0] != 'E')
    ensures ReadReal(FixedText(r) + rest) == Read(Snap(r), true, rest)
    ensures ReadReal(" " + (FixedText(r) + rest)) == Read(Snap(r), true, rest)
  {
    RealAtFixed(r, rest);
    FixedTextChars(r, FixedText(r)[0]);
    SkipOne(FixedText(r) + rest);
  }

  /** What a printed number can consist of. */
  lemma FixedTextChars(r: real, c: char)
    requires c in FixedText(r)
    ensures IsDigit(c) || c == '.' || c == '-'
  {
    var q := Millionths(if r < 0.0 then -r else r);
    DigitsAreDigits(WithoutLast(q, PLACES));
    LastAreDigits(q, PLACES);
  }
}
