/**
What a C++ input stream does with a text: operator>> for words, unsigned integers and
floating-point numbers in the default locale.
*/
module TextStream {

  /** The outcome of one extraction: the value, whether the stream is still good, what is left. */
  datatype Read<+T> = Read(value: T, good: bool, rest: string)

  predicate IsSpace(c: char) { c == ' ' || '\t' <= c <= '\r' }

  predicate IsDigit(c: char) { '0' <= c <= '9' }

  predicate AllDigits(s: string) { forall i :: 0 <= i < |s| ==> IsDigit(s[i]) }

  predicate NoSpace(s: string) { forall i :: 0 <= i < |s| ==> !IsSpace(s[i]) }

  function SkipSpace(s: string): (rest: string)
    ensures |rest| <= |s|
  {
    if s != "" && IsSpace(s[0]) then SkipSpace(s[1..]) else s
  }

  function WordLength(s: string): (n: nat)
    ensures n <= |s|
  {
    if s != "" && !IsSpace(s[0]) then 1 + WordLength(s[1..]) else 0
  }

  function DigitCount(s: string): (n: nat)
    ensures n <= |s|
  {
    if s != "" && IsDigit(s[0]) then 1 + DigitCount(s[1..]) else 0
  }

  function DigitValue(c: char): nat { if IsDigit(c) then c as int - '0' as int else 0 }

  function Number(digits: string): nat {
    if digits == "" then 0 else 10 * Number(digits[..|digits| - 1]) + DigitValue(digits[|digits| - 1])
  }

  predicate Signed(s: string) { s != "" && (s[0] == '+' || s[0] == '-') }

  function Unsigned(s: string): string { if Signed(s) then s[1..] else s }

  /** A word; at the end of the text there is none and the stream fails. */
  function ReadWord(s: string): Read<string> {
    var t := SkipSpace(s);
    var n := WordLength(t);
    Read(t[..n], n > 0, t[n..])
  }

  /** An unsigned integer type with the given greatest value.  A minus sign negates within the
      type; too great a value fails and gives the greatest one. */
  function ReadUnsigned(s: string, max: nat): Read<nat> {
    UnsignedAt(SkipSpace(s), max)
  }

  function UnsignedAt(t: string, max: nat): (r: Read<nat>)
    ensures r.value <= max
  {
    var u := Unsigned(t);
    var n := DigitCount(u);
    if n == 0 then Read(0, false, u)
    else
      var v := Number(u[..n]);
      if v > max then Read(max, false, u[n..])
      else Read(if t[0] == '-' && v > 0 then max + 1 - v else v, true, u[n..])
  }

  /** x times ten to the power e. */
  function Shift(x: real, e: int): real
    decreases if e < 0 then -e else e
  {
    if e == 0 then x else if e > 0 then Shift(x * 10.0, e - 1) else Shift(x / 10.0, e + 1)
  }

  /** The exponent behind a mantissa; an e without digits behind it makes the stream fail. */
  function ReadExponent(s: string): Read<int> {
    if s == "" || (s[0] != 'e' && s[0] != 'E') then Read(0, true, s)
    else
      var u := Unsigned(s[1..]);
      var n := DigitCount(u);
      if n == 0 then Read(0, false, u)
      else
        var e: int := Number(u[..n]);
        Read(if Signed(s[1..]) && s[1] == '-' then -e else e, true, u[n..])
  }

  /** A floating-point number, as an exact real. */
  function ReadReal(s: string): Read<real> {
    RealAt(SkipSpace(s))
  }

  function RealAt(t: string): Read<real> {
    WithSign(Signed(t) && t[0] == '-', Magnitude(Unsigned(t)))
  }

  function WithSign(minus: bool, r: Read<real>): Read<real> {
    if minus then Read(0.0 - r.value, r.good, r.rest) else r
  }

  function Magnitude(u: string): Read<real> {
    var whole := DigitCount(u);
    if whole < |u| && u[whole] == '.' then
      var v := u[whole + 1..];
      Scaled(u[..whole], v[..DigitCount(v)], v[DigitCount(v)..])
    else Scaled(u[..whole], "", u[whole..])
  }

  /** A mantissa, given as the digits before and after its point, and what follows it. */
  function Scaled(whole: string, frac: string, rest: string): Read<real> {
    var exponent := ReadExponent(rest);
    if whole + frac == "" then Read(0.0, false, rest)
    else if !exponent.good then Read(0.0, false, exponent.rest)
    else Read(Shift(Number(whole + frac) as real, exponent.value - |frac|), true, exponent.rest)
  }

  // ---------------------------------------------------------------- reading what was written

  lemma {:induction false} DigitCountOf(digits: string, rest: string)
    requires AllDigits(digits) && (rest == "" || !IsDigit(rest[0]))
    ensures DigitCount(digits + rest) == |digits|
  {
    if digits == "" {
      assert digits + rest == rest;
    } else {
      assert (digits + rest)[1..] == digits[1..] + rest;
      DigitCountOf(digits[1..], rest);
    }
  }

  lemma {:induction false} WordHasNoSpace(s: string)
    ensures NoSpace(s[..WordLength(s)])
  {
    if s != "" && !IsSpace(s[0]) {
      WordHasNoSpace(s[1..]);
      assert s[..WordLength(s)] == [s[0]] + s[1..][..WordLength(s[1..])];
    }
  }

  lemma {:induction false} WordLengthOf(word: string, rest: string)
    requires NoSpace(word) && (rest == "" || IsSpace(rest[0]))
    ensures WordLength(word + rest) == |word|
  {
    if word == "" {
      assert word + rest == rest;
    } else {
      assert (word + rest)[1..] == word[1..] + rest;
      WordLengthOf(word[1..], rest);
    }
  }

  /** One blank is skipped before anything that does not start with white space. */
  lemma SkipOne(s: string)
    requires s == "" || !IsSpace(s[0])
    ensures SkipSpace(s) == s && SkipSpace(" " + s) == s
  {
    assert (" " + s)[1..] == s;
  }

  lemma ReadWordOf(word: string, rest: string)
    requires word != "" && NoSpace(word) && (rest == "" || IsSpace(rest[0]))
    ensures ReadWord(word + rest) == Read(word, true, rest)
  {
    WordLengthOf(word, rest);
    assert !IsSpace((word + rest)[0]);
    SkipOne(word + rest);
  }

  /** A read word is the whole text exactly when the text has no white space. */
  lemma WholeWordIff(s: string)
    ensures ReadWord(s).value == s <==> NoSpace(s)
  {
    var t := SkipSpace(s);
    WordHasNoSpace(t);
    if NoSpace(s) {
      assert s + "" == s;
      WordLengthOf(s, "");
      SkipOne(s);
    }
  }

  /** Reading digits gives their number, or the greatest value and a failure. */
  lemma UnsignedAtOf(digits: string, rest: string, max: nat)
    requires digits != "" && AllDigits(digits) && (rest == "" || !IsDigit(rest[0]))
    ensures var n := Number(digits);
      UnsignedAt(digits + rest, max) == Read(if n <= max then n else max, n <= max, rest)
  {
    var s := digits + rest;
    assert IsDigit(s[0]) && !Signed(s);
    DigitCountOf(digits, rest);
    assert s[..|digits|] == digits;
    assert s[|digits|..] == rest;
  }

  lemma MagnitudeOf(whole: string, frac: string, rest: string)
    requires whole != "" && AllDigits(whole) && AllDigits(frac) && (rest == "" || !IsDigit(rest[0]))
    ensures Magnitude(whole + ("." + (frac + rest))) == Scaled(whole, frac, rest)
  {
    var tail := "." + (frac + rest);
    var u := whole + tail;
    DigitCountOf(whole, tail);
    assert u[|whole|] == '.';
    assert u[..|whole|] == whole;
    assert u[|whole| + 1..] == frac + rest;
    DigitCountOf(frac, rest);
    assert (frac + rest)[..|frac|] == frac;
    assert (frac + rest)[|frac|..] == rest;
  }

  lemma SignOf(minus: bool, u: string)
    requires u != "" && IsDigit(u[0])
    ensures var t := (if minus then "-" else "") + u;
      Unsigned(t) == u && (minus <==> Signed(t) && t[0] == '-')
  {
    if minus {
      assert ("-" + u)[0] == '-' && ("-" + u)[1..] == u;
    } else {
      assert "" + u == u;
    }
  }

  lemma PlainExponent(rest: string)
    requires rest == "" || (rest[0] != 'e' && rest[0] != 'E')
    ensures ReadExponent(rest) == Read(0, true, rest)
  {}

  lemma PlainScaled(whole: string, frac: string, rest: string)
    requires whole != "" && AllDigits(whole) && AllDigits(frac) && AllDigits(whole + frac)
    requires ReadExponent(rest) == Read(0, true, rest)
    ensures Scaled(whole, frac, rest) == Read(Shift(Number(whole + frac) as real, -|frac|), true, rest)
  {}

  /** Reading an optional minus sign, digits, a point and digits. */
  lemma RealAtOf(minus: bool, whole: string, frac: string, rest: string)
    requires whole != "" && AllDigits(whole) && AllDigits(frac) && AllDigits(whole + frac)
    requires rest == "" || (!IsDigit(rest[0]) && rest[0] != 'e' && rest[0] != 'E')
    ensures var x := Shift(Number(whole + frac) as real, -|frac|);
      RealAt((if minus then "-" else "") + (whole + ("." + (frac + rest)))) == WithSign(minus, Read(x, true, rest))
  {
    MagnitudeOf(whole, frac, rest);
    PlainExponent(rest);
    PlainScaled(whole, frac, rest);
    SignOf(minus, whole + ("." + (frac + rest)));
  }
}
