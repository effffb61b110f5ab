/**
Command lines as users type them: any white space around the words, integers and numbers in
any form the stream reads.  Which lines are accepted, and as which command.
*/
module TypedLines {
  import opened Messages
  import opened TextStream
  import opened Decimal
  import opened Codec
  import opened Numerals
  import opened ClientParser

  // ---------------------------------------------------------------- integers

  /** An unsigned integer as typed: digits, perhaps behind a sign. */
  datatype Whole = Whole(sign: Sign, digits: string)

  predicate ValidWhole(w: Whole) { w.digits != "" && AllDigits(w.digits) }

  function WholeText(w: Whole): string { SignText(w.sign) + w.digits }

  predicate Fits(w: Whole, max: nat) { Number(w.digits) <= max }

  /** Behind a minus sign it is what the type has in place of the negative number. */
  function WholeValue(w: Whole, max: nat): int {
    if w.sign == Minus && Number(w.digits) > 0 then max + 1 - Number(w.digits) else Number(w.digits)
  }

  lemma ReadWhole(gap: string, w: Whole, rest: string, max: nat)
    requires (gap == "" || Blank(gap)) && ValidWhole(w) && (rest == "" || !IsDigit(rest[0]))
    ensures ReadUnsigned(gap + (WholeText(w) + rest), max)
      == if Fits(w, max) then Read(WholeValue(w, max), true, rest) else Read(max, false, rest)
  {
    var t := SignText(w.sign) + (w.digits + rest);
    SignApart(SignText(w.sign), w.digits, rest);
    assert (w.digits + rest)[0] == w.digits[0];
    assert t[0] == (match w.sign case NoSign => w.digits[0] case Plus => '+' case Minus => '-');
    SkipBlank(gap, t);
    SignedText(w.sign, w.digits + rest);
    DigitsRead(w.digits, rest);
  }

  // ---------------------------------------------------------------- words between white space

  predicate AllBlank(gaps: seq<string>) { forall i :: 0 <= i < |gaps| ==> Blank(gaps[i]) }

  predicate AllValid(ws: seq<Numeral>) { forall i :: 0 <= i < |ws| ==> Valid(ws[i]) }

  predicate EndOfLine(s: string) { s == "" || Blank(s) }

  function Worths(ws: seq<Numeral>): (k: seq<real>)
    ensures |k| == |ws|
  {
    seq(|ws|, i requires 0 <= i < |ws| => Worth(ws[i]))
  }

  /** Numbers, each behind some white space. */
  function Laid(gaps: seq<string>, ws: seq<Numeral>, end: string): string
    requires |gaps| == |ws|
  {
    if ws == [] then end else gaps[0] + (Text(ws[0]) + Laid(gaps[1..], ws[1..], end))
  }

  /** Begins with white space, or is nothing. */
  predicate Apart(s: string) { s == "" || IsSpace(s[0]) }

  lemma BlankFirst(gap: string, s: string)
    requires Blank(gap)
    ensures Apart(gap + s)
  {
    assert (gap + s)[0] == gap[0];
  }

  lemma EndIsApart(end: string)
    requires EndOfLine(end)
    ensures Apart(end) && AtEnd(end)
  {
    SkipBlank(end, "");
    assert end + "" == end;
  }

  lemma LaidApart(gaps: seq<string>, ws: seq<Numeral>, end: string)
    requires |gaps| == |ws| && AllBlank(gaps) && EndOfLine(end)
    ensures Apart(Laid(gaps, ws, end))
  {
    EndIsApart(end);
    if ws != [] {
      BlankFirst(gaps[0], Text(ws[0]) + Laid(gaps[1..], ws[1..], end));
    }
  }

  lemma ApartEnds(s: string)
    requires Apart(s)
    ensures Ends(s)
  {
  }

  /** What is left of the line ends it exactly when no number is left. */
  lemma LaidAtEnd(gaps: seq<string>, ws: seq<Numeral>, end: string)
    requires |gaps| == |ws| && AllBlank(gaps) && AllValid(ws) && EndOfLine(end)
    ensures AtEnd(Laid(gaps, ws, end)) <==> ws == []
  {
    EndIsApart(end);
    if ws != [] {
      var rest := Laid(gaps[1..], ws[1..], end);
      FirstChar(ws[0], rest);
      assert (Text(ws[0]) + rest)[0] == Text(ws[0])[0];
      SkipBlank(gaps[0], Text(ws[0]) + rest);
    }
  }

  lemma NoMoreNumbers(end: string)
    requires EndOfLine(end)
    ensures !ReadReal(end).good
  {
    EndIsApart(end);
    assert Magnitude("") == Scaled("", "", "");
  }

  lemma FirstNumber(gaps: seq<string>, ws: seq<Numeral>, end: string)
    requires |gaps| == |ws| && AllBlank(gaps) && AllValid(ws) && EndOfLine(end) && ws != []
    ensures ReadReal(Laid(gaps, ws, end)) == Read(Worth(ws[0]), true, Laid(gaps[1..], ws[1..], end))
  {
    var rest := Laid(gaps[1..], ws[1..], end);
    LaidApart(gaps[1..], ws[1..], end);
    ApartEnds(rest);
    ReadNumeral(gaps[0], ws[0], rest);
  }

  lemma WorthFirst(ws: seq<Numeral>, n: nat, rest: string)
    requires 0 < n <= |ws|
    ensures Prepend([Worth(ws[0])], Ok(Vector(Worths(ws[1..])[..n - 1], rest))) == Ok(Vector(Worths(ws)[..n], rest))
  {
    assert [Worth(ws[0])] + Worths(ws[1..])[..n - 1] == Worths(ws)[..n];
  }

  /** What there is to read when n numbers are asked for. */
  function Taken(gaps: seq<string>, ws: seq<Numeral>, end: string, n: nat): Result<Vector<real>>
    requires |gaps| == |ws|
  {
    if n <= |ws| then Ok(Vector(Worths(ws)[..n], Laid(gaps[n..], ws[n..], end))) else Thrown
  }

  lemma TakenFirst(gaps: seq<string>, ws: seq<Numeral>, end: string, n: nat)
    requires |gaps| == |ws| && ws != [] && n > 0
    ensures Prepend([Worth(ws[0])], Taken(gaps[1..], ws[1..], end, n - 1)) == Taken(gaps, ws, end, n)
  {
    if n <= |ws| {
      assert gaps[1..][n - 1..] == gaps[n..] && ws[1..][n - 1..] == ws[n..];
      WorthFirst(ws, n, Laid(gaps[n..], ws[n..], end));
    }
  }

  /** Reads the first number of a row, or none if there is none. */
  ghost predicate ReadsRow(read: string -> Read<real>, gaps: seq<string>, ws: seq<Numeral>, end: string) {
    |gaps| == |ws| && AllBlank(gaps) && AllValid(ws) && EndOfLine(end) ==>
      if ws == [] then !read(end).good
      else read(Laid(gaps, ws, end)) == Read(Worth(ws[0]), true, Laid(gaps[1..], ws[1..], end))
  }

  ghost predicate ReadsRows(read: string -> Read<real>) {
    forall gaps, ws, end :: ReadsRow(read, gaps, ws, end)
  }

  lemma RealRows()
    ensures ReadsRows(ReadReal)
  {
    forall gaps, ws, end ensures ReadsRow(ReadReal, gaps, ws, end) {
      if |gaps| == |ws| && AllBlank(gaps) && AllValid(ws) && EndOfLine(end) {
        if ws == [] {
          NoMoreNumbers(end);
        } else {
          FirstNumber(gaps, ws, end);
        }
      }
    }
  }

  lemma LaidStep(read: string -> Read<real>, gaps: seq<string>, ws: seq<Numeral>, end: string, n: nat)
    requires ReadsRows(read) && |gaps| == |ws| && AllBlank(gaps) && AllValid(ws) && EndOfLine(end) && ws != [] && n > 0
    requires ReadVector(read, Laid(gaps[1..], ws[1..], end), n - 1) == Taken(gaps[1..], ws[1..], end, n - 1)
    ensures ReadVector(read, Laid(gaps, ws, end), n) == Taken(gaps, ws, end, n)
  {
    var rest := Laid(gaps[1..], ws[1..], end);
    assert ReadsRow(read, gaps, ws, end);
    TakenFirst(gaps, ws, end, n);
    VectorStep(read, Laid(gaps, ws, end), n, Read(Worth(ws[0]), true, rest));
  }

  /** n numbers are read exactly if there are as many. */
  lemma {:induction false} ReadLaid(read: string -> Read<real>, gaps: seq<string>, ws: seq<Numeral>, end: string,
                                    n: nat)
    requires ReadsRows(read) && |gaps| == |ws| && AllBlank(gaps) && AllValid(ws) && EndOfLine(end)
    ensures ReadVector(read, Laid(gaps, ws, end), n) == Taken(gaps, ws, end, n)
    decreases n
  {
    if n == 0 {
      assert gaps[0..] == gaps && ws[0..] == ws;
    } else if ws == [] {
      assert ReadsRow(read, gaps, ws, end);
    } else {
      ReadLaid(read, gaps[1..], ws[1..], end, n - 1);
      LaidStep(read, gaps, ws, end, n);
    }
  }

  lemma VectorStep<T>(read: string -> Read<T>, s: string, n: nat, x: Read<T>)
    requires n > 0 && read(s) == x && x.good
    ensures ReadVector(read, s, n) == Prepend([x.value], ReadVector(read, x.rest, n - 1))
  {
  }

  // ---------------------------------------------------------------- arguments

  function ExecTyped(before: string, id: Whole, between: string, count: Whole, numbers: string): string {
    before + (WholeText(id) + (between + (WholeText(count) + numbers)))
  }

  lemma CountRead(s: string, id: Read<nat>, count: Read<nat>, ws: seq<Numeral>, gaps: seq<string>, end: string)
    requires |gaps| == |ws| && AllBlank(gaps) && AllValid(ws) && EndOfLine(end)
    requires ReadUnsigned(s, UINT16_MAX) == id && ReadUnsigned(id.rest, UINT64_MAX) == count && id.good && count.good
    requires count.rest == Laid(gaps, ws, end)
    ensures ParseExec(s) == if count.value == |ws| then Ok(Exec(id.value, Worths(ws))) else Thrown
  {
    RealRows();
    ReadLaid(ReadReal, gaps, ws, end, count.value);
    if count.value <= |ws| {
      LaidAtEnd(gaps[count.value..], ws[count.value..], end);
      if count.value == |ws| {
        assert Worths(ws)[..|ws|] == Worths(ws);
      }
    }
  }

  /** The arguments of exec: accepted exactly when id and count fit their types and as many numbers
      follow as the count says; the command has what they are worth. */
  lemma TypedExec(before: string, id: Whole, between: string, count: Whole, gaps: seq<string>, ws: seq<Numeral>,
                  end: string)
    requires Blank(before) && Blank(between) && ValidWhole(id) && ValidWhole(count)
    requires |gaps| == |ws| && AllBlank(gaps) && AllValid(ws) && EndOfLine(end)
    ensures ParseExec(ExecTyped(before, id, between, count, Laid(gaps, ws, end)))
      == if Fits(id, UINT16_MAX) && Fits(count, UINT64_MAX) && WholeValue(count, UINT64_MAX) == |ws|
         then Ok(Exec(WholeValue(id, UINT16_MAX), Worths(ws))) else Thrown
  {
    var numbers := Laid(gaps, ws, end);
    var second := between + (WholeText(count) + numbers);
    BlankFirst(between, WholeText(count) + numbers);
    LaidApart(gaps, ws, end);
    ReadWhole(before, id, second, UINT16_MAX);
    ReadWhole(between, count, numbers, UINT64_MAX);
    if Fits(id, UINT16_MAX) && Fits(count, UINT64_MAX) {
      CountRead(ExecTyped(before, id, between, count, numbers), Read(WholeValue(id, UINT16_MAX), true, second),
                Read(WholeValue(count, UINT64_MAX), true, numbers), ws, gaps, end);
    }
  }

  lemma TypedCreate(before: string, id: Whole, between: string, parent: Whole, end: string)
    requires Blank(before) && Blank(between) && ValidWhole(id) && ValidWhole(parent) && EndOfLine(end)
    ensures ParseCreate(before + (WholeText(id) + (between + (WholeText(parent) + end))))
      == if Fits(id, UINT16_MAX) && Fits(parent, UINT16_MAX)
         then Ok(Create(WholeValue(id, UINT16_MAX), WholeValue(parent, UINT16_MAX))) else Thrown
  {
    BlankFirst(between, WholeText(parent) + end);
    EndIsApart(end);
    ReadWhole(before, id, between + (WholeText(parent) + end), UINT16_MAX);
    ReadWhole(between, parent, end, UINT16_MAX);
  }

  // ---------------------------------------------------------------- lines

  /** A line with the name of a known command is what the arguments say, and nothing else. */
  lemma LineIs(types: seq<CommandType>, t: CommandType, lead: string, arguments: string)
    requires t in types && EndOfLine(lead) && Apart(arguments)
    ensures FirstSuccess(types, lead + (NameOf(t) + arguments)) == ParseArguments(t, arguments)
  {
    var line := lead + (NameOf(t) + arguments);
    NameRead(t, lead, arguments);
    assert Attempt(t, line) == ParseArguments(t, arguments);
    if Attempt(t, line).Ok? {
      FirstSuccessIff(types, line, Attempt(t, line).value);
    } else if FirstSuccess(types, line).Ok? {
      var c := FirstSuccess(types, line).value;
      FirstSuccessIff(types, line, c);
      var u :| u in types && Attempt(u, line) == Ok(c);
      NamesDiffer(t, u);
    }
  }

  lemma NameRead(t: CommandType, lead: string, arguments: string)
    requires EndOfLine(lead) && Apart(arguments)
    ensures ReadWord(lead + (NameOf(t) + arguments)) == Read(NameOf(t), true, arguments)
  {
    var name := NameOf(t);
    assert (name + arguments)[0] == name[0];
    SkipBlank(lead, name + arguments);
    SkipOne(name + arguments);
    ReadWordOf(name, arguments);
  }

  /** A whole exec line. */
  lemma ExecLineIs(types: seq<CommandType>, lead: string, before: string, id: Whole, between: string, count: Whole,
                   gaps: seq<string>, ws: seq<Numeral>, end: string)
    requires ExecEnum in types && EndOfLine(lead) && Blank(before) && Blank(between)
    requires ValidWhole(id) && ValidWhole(count)
    requires |gaps| == |ws| && AllBlank(gaps) && AllValid(ws) && EndOfLine(end)
    ensures FirstSuccess(types, lead + ("exec" + ExecTyped(before, id, between, count, Laid(gaps, ws, end))))
      == if Fits(id, UINT16_MAX) && Fits(count, UINT64_MAX) && WholeValue(count, UINT64_MAX) == |ws|
         then Ok(Exec(WholeValue(id, UINT16_MAX), Worths(ws))) else Thrown
  {
    var numbers := Laid(gaps, ws, end);
    BlankFirst(before, WholeText(id) + (between + (WholeText(count) + numbers)));
    LineIs(types, ExecEnum, lead, ExecTyped(before, id, between, count, numbers));
    TypedExec(before, id, between, count, gaps, ws, end);
  }

  /** A whole create line. */
  lemma CreateLineIs(types: seq<CommandType>, lead: string, before: string, id: Whole, between: string, parent: Whole,
                     end: string)
    requires CreateEnum in types && EndOfLine(lead) && Blank(before) && Blank(between)
    requires ValidWhole(id) && ValidWhole(parent) && EndOfLine(end)
    ensures FirstSuccess(types, lead + ("create" + (before + (WholeText(id) + (between + (WholeText(parent) + end))))))
      == if Fits(id, UINT16_MAX) && Fits(parent, UINT16_MAX)
         then Ok(Create(WholeValue(id, UINT16_MAX), WholeValue(parent, UINT16_MAX))) else Thrown
  {
    BlankFirst(before, WholeText(id) + (between + (WholeText(parent) + end)));
    LineIs(types, CreateEnum, lead, before + (WholeText(id) + (between + (WholeText(parent) + end))));
    TypedCreate(before, id, between, parent, end);
  }

  // ---------------------------------------------------------------- and no others

  predicate Gap(s: string) { s == "" || Blank(s) }

  lemma {:induction false} SkippedIs(s: string) returns (gap: string)
    ensures Gap(gap) && s == gap + SkipSpace(s)
    ensures SkipSpace(s) == "" || !IsSpace(SkipSpace(s)[0])
  {
    if s != "" && IsSpace(s[0]) {
      var more := SkippedIs(s[1..]);
      gap := [s[0]] + more;
      assert s == [s[0]] + s[1..];
    } else {
      gap := "";
    }
  }

  /** Where an integer is read there is one that fits. */
  lemma OnlyWholes(s: string, max: nat) returns (gap: string, w: Whole)
    requires ReadUnsigned(s, max).good
    ensures Gap(gap) && ValidWhole(w) && Fits(w, max)
    ensures s == gap + (WholeText(w) + ReadUnsigned(s, max).rest) && ReadUnsigned(s, max).value == WholeValue(w, max)
  {
    gap := SkippedIs(s);
    var t := SkipSpace(s);
    var sign := SignIs(t);
    var u := Unsigned(t);
    CountedDigits(u);
    w := Whole(sign, u[..DigitCount(u)]);
    SignApart(SignText(sign), w.digits, u[DigitCount(u)..]);
    MinusFirst(t, sign);
  }

  lemma MinusFirst(t: string, sign: Sign)
    requires sign == Minus <==> Signed(t) && t[0] == '-'
    ensures t != "" ==> (t[0] == '-' <==> sign == Minus)
  {
  }

  lemma OnlyNumber(s: string) returns (gap: string, n: Numeral)
    requires ReadReal(s).good
    ensures Gap(gap) && Valid(n) && s == gap + (Text(n) + ReadReal(s).rest) && ReadReal(s).value == Worth(n)
  {
    gap := SkippedIs(s);
    n := OnlyNumerals(SkipSpace(s));
  }

  predicate AllGaps(gaps: seq<string>) { forall i :: 0 <= i < |gaps| ==> Gap(gaps[i]) }

  /** n numbers are read from a row of n numbers only. */
  lemma {:induction false} OnlyRows(s: string, n: nat) returns (gaps: seq<string>, ws: seq<Numeral>)
    requires ReadVector(ReadReal, s, n).Ok?
    ensures |gaps| == |ws| == n && AllGaps(gaps) && AllValid(ws)
    ensures var v := ReadVector(ReadReal, s, n).value;
      s == Laid(gaps, ws, v.rest) && v.v == Worths(ws)
    decreases n
  {
    if n == 0 {
      gaps, ws := [], [];
    } else {
      var gap, w := OnlyNumber(s);
      var gaps', ws' := OnlyRows(ReadReal(s).rest, n - 1);
      gaps, ws := [gap] + gaps', [w] + ws';
      RowLonger(s, gap, w, gaps', ws', ReadVector(ReadReal, s, n).value.rest);
      WorthsLonger(w, ws');
    }
  }

  lemma WorthsLonger(w: Numeral, ws: seq<Numeral>)
    ensures Worths([w] + ws) == [Worth(w)] + Worths(ws)
  {
  }

  lemma RowLonger(s: string, gap: string, w: Numeral, gaps: seq<string>, ws: seq<Numeral>, end: string)
    requires |gaps| == |ws| && s == gap + (Text(w) + Laid(gaps, ws, end))
    ensures s == Laid([gap] + gaps, [w] + ws, end)
  {
    assert ([gap] + gaps)[1..] == gaps && ([w] + ws)[1..] == ws;
  }

  /** The arguments of every accepted exec. */
  lemma OnlyExecArguments(s: string)
    returns (before: string, id: Whole, between: string, count: Whole, gaps: seq<string>, ws: seq<Numeral>, end: string)
    requires ParseExec(s).Ok?
    ensures Gap(before) && Gap(between) && |gaps| == |ws| && AllGaps(gaps) && Gap(end)
    ensures ValidWhole(id) && ValidWhole(count) && AllValid(ws)
    ensures s == ExecTyped(before, id, between, count, Laid(gaps, ws, end))
    ensures Fits(id, UINT16_MAX) && Fits(count, UINT64_MAX) && WholeValue(count, UINT64_MAX) == |ws|
    ensures ParseExec(s) == Ok(Exec(WholeValue(id, UINT16_MAX), Worths(ws)))
  {
    var first := ReadUnsigned(s, UINT16_MAX);
    var second := ReadUnsigned(first.rest, UINT64_MAX);
    before, id := OnlyWholes(s, UINT16_MAX);
    between, count := OnlyWholes(first.rest, UINT64_MAX);
    gaps, ws := OnlyRows(second.rest, second.value);
    var rest := ReadVector(ReadReal, second.rest, second.value).value.rest;
    end := SkippedIs(rest);
    assert end + "" == end;
  }

  lemma OnlyCreateArguments(s: string) returns (before: string, id: Whole, between: string, parent: Whole, end: string)
    requires ParseCreate(s).Ok?
    ensures Gap(before) && Gap(between) && Gap(end) && ValidWhole(id) && ValidWhole(parent)
    ensures s == before + (WholeText(id) + (between + (WholeText(parent) + end)))
    ensures Fits(id, UINT16_MAX) && Fits(parent, UINT16_MAX)
    ensures ParseCreate(s) == Ok(Create(WholeValue(id, UINT16_MAX), WholeValue(parent, UINT16_MAX)))
  {
    var first := ReadUnsigned(s, UINT16_MAX);
    before, id := OnlyWholes(s, UINT16_MAX);
    between, parent := OnlyWholes(first.rest, UINT16_MAX);
    end := SkippedIs(ReadUnsigned(first.rest, UINT16_MAX).rest);
    assert end + "" == end;
  }

  /** The first word of a text. */
  lemma WordIs(input: string) returns (lead: string)
    ensures Gap(lead) && Apart(ReadWord(input).rest)
    ensures input == lead + (ReadWord(input).value + ReadWord(input).rest)
    ensures ReadWord(input).good <==> SkipSpace(input) != ""
  {
    lead := SkippedIs(input);
    var word := SkipSpace(input);
    WordEnds(word);
    assert word == word[..WordLength(word)] + word[WordLength(word)..];
  }

  lemma OnlyNamed(t: CommandType, input: string)
    requires Attempt(t, input).Ok?
    ensures ReadWord(input).value == NameOf(t) && ParseArguments(t, ReadWord(input).rest) == Attempt(t, input)
  {
  }

  /** Every accepted line begins with the name of a known command, and what follows are arguments
      of that command. */
  lemma OnlyLines(types: seq<CommandType>, input: string) returns (t: CommandType, lead: string, arguments: string)
    requires FirstSuccess(types, input).Ok?
    ensures t in types && Gap(lead) && Apart(arguments) && input == lead + (NameOf(t) + arguments)
    ensures ParseArguments(t, arguments) == FirstSuccess(types, input)
  {
    FirstSuccessIff(types, input, FirstSuccess(types, input).value);
    t :| t in types && Attempt(t, input) == FirstSuccess(types, input);
    OnlyNamed(t, input);
    lead := WordIs(input);
    arguments := ReadWord(input).rest;
  }

  lemma {:induction false} WordEnds(s: string)
    ensures Apart(s[WordLength(s)..])
  {
    if s != "" && !IsSpace(s[0]) {
      WordEnds(s[1..]);
      assert s[WordLength(s)..] == s[1..][WordLength(s[1..])..];
    }
  }

  // ---------------------------------------------------------------- what the client prints is among them

  /** A printed decimal is worth the rounded number. */
  lemma PrintedWorth(x: real) returns (n: Numeral)
    ensures Valid(n) && Text(n) == FixedText(x) && Worth(n) == Snap(x)
  {
    RealAtFixed(x, "");
    assert FixedText(x) + "" == FixedText(x);
    n := OnlyNumerals(FixedText(x));
    assert Text(n) + "" == Text(n);
  }
}
