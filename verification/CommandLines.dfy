/**
Command lines as a user would type them for a command, what the client's parser makes of them,
and what the server gets.
*/
module CommandLines {
  import opened Messages
  import opened TextStream
  import opened Decimal
  import opened Codec
  import opened Rounding
  import opened ClientParser
  import RoundTrip
  import WireTheorems

  // ---------------------------------------------------------------- lines

  /** Words, each after a blank. */
  function Spaced(words: seq<string>): string {
    if words == [] then "" else " " + (words[0] + Spaced(words[1..]))
  }

  function CreateArguments(x: nat, p: nat): string {
    " " + (Digits(x) + (" " + (Digits(p) + "")))
  }

  /** An id, a count, and numbers, as many as there are. */
  function ExecArguments(id: nat, n: nat, xs: seq<real>): string {
    " " + (Digits(id) + (" " + (Digits(n) + Spaced(Texts(xs)))))
  }

  function Line(c: Command): string {
    match c
    case Create(x, p) => "create" + CreateArguments(x, p)
    case Exec(id, k) => "exec" + ExecArguments(id, |k|, k)
    case PrintTree => "print" + ""
  }

  function TypeFor(c: Command): CommandType {
    match c
    case Create(_, _) => CreateEnum
    case Exec(_, _) => ExecEnum
    case PrintTree => PrintTreeEnum
  }

  predicate InRange(c: Command) {
    match c
    case Create(x, p) => x <= UINT16_MAX && p <= UINT16_MAX
    case Exec(id, k) => id <= UINT16_MAX && |k| <= UINT64_MAX
    case PrintTree => true
  }

  predicate Separated(s: string) { s == "" || IsSpace(s[0]) }

  // ---------------------------------------------------------------- reading numbers

  lemma NothingToRead()
    ensures !ReadReal("").good && AtEnd("")
  {
    assert Magnitude("") == Scaled("", "", "");
  }

  /** A word that reads as a value, whatever comes after it. */
  ghost predicate ReadsAs<T(!new)>(read: string -> Read<T>, word: string, x: T) {
    && word != "" && !IsSpace(word[0])
    && forall rest: string :: Separated(rest) ==> read(" " + (word + rest)) == Read(x, true, rest)
  }

  ghost predicate AllReadAs<T(!new)>(read: string -> Read<T>, words: seq<string>, xs: seq<T>) {
    |words| == |xs| && forall i :: 0 <= i < |xs| ==> ReadsAs(read, words[i], xs[i])
  }

  lemma NotAtEnd<T(!new)>(read: string -> Read<T>, words: seq<string>, xs: seq<T>)
    requires words != [] && AllReadAs(read, words, xs)
    ensures !AtEnd(Spaced(words))
  {
    assert ReadsAs(read, words[0], xs[0]);
    SkipOne(words[0] + Spaced(words[1..]));
  }

  /** Reading n variables succeeds exactly when there are as many words. */
  lemma {:induction false} ReadWords<T(!new)>(read: string -> Read<T>, words: seq<string>, xs: seq<T>, n: nat)
    requires AllReadAs(read, words, xs) && !read("").good
    ensures ReadVector(read, Spaced(words), n)
      == if n <= |xs| then Ok(Vector(xs[..n], Spaced(words[n..]))) else Thrown
    decreases n
  {
    if n == 0 {
      assert words[0..] == words;
    } else if words != [] {
      assert ReadsAs(read, words[0], xs[0]);
      ReadWords(read, words[1..], xs[1..], n - 1);
      if n <= |xs| {
        assert words[1..][n - 1..] == words[n..];
        assert xs[..n] == [xs[0]] + xs[1..][..n - 1];
      }
    }
  }

  lemma TextsReadAs(xs: seq<real>)
    ensures AllReadAs(ReadReal, Texts(xs), Snapped(xs))
  {
    forall i | 0 <= i < |xs| ensures ReadsAs(ReadReal, Texts(xs)[i], Snapped(xs)[i]) {
      TextReadsAs(xs[i]);
    }
  }

  lemma TextReadsAs(x: real)
    ensures ReadsAs(ReadReal, FixedText(x), Snap(x))
  {
    FixedTextChars(x, FixedText(x)[0]);
    forall rest: string | Separated(rest) ensures ReadReal(" " + (FixedText(x) + rest)) == Read(Snap(x), true, rest) {
      ReadFixed(x, rest);
    }
  }

  /** One integer in front of separated text. */
  lemma ReadOneInteger(n: nat, rest: string, max: nat)
    requires Separated(rest)
    ensures ReadUnsigned(" " + (Digits(n) + rest), max) == Read(if n <= max then n else max, n <= max, rest)
  {
    ReadDigits(n, rest, max);
  }

  // ---------------------------------------------------------------- reading lines

  lemma CreateLine(x: nat, p: nat)
    ensures ParseCreate(CreateArguments(x, p))
      == if x <= UINT16_MAX && p <= UINT16_MAX then Ok(Create(x, p)) else Thrown
  {
    var second := " " + (Digits(p) + "");
    ReadOneInteger(x, second, UINT16_MAX);
    ReadOneInteger(p, "", UINT16_MAX);
    NothingToRead();
  }

  predicate TakesAll(v: Result<Vector<real>>) { v.Ok? && AtEnd(v.value.rest) }

  lemma ExecFromParts(s: string, id: Read<nat>, n: Read<nat>)
    requires ReadUnsigned(s, UINT16_MAX) == id && ReadUnsigned(id.rest, UINT64_MAX) == n && id.good && n.good
    ensures var v := ReadVector(ReadReal, n.rest, n.value);
      ParseExec(s) == if TakesAll(v) then Ok(Exec(id.value, v.value.v)) else Thrown
  {}

  lemma ReadAllNumbers(xs: seq<real>, n: nat)
    ensures var v := ReadVector(ReadReal, Spaced(Texts(xs)), n);
      (TakesAll(v) <==> n == |xs|) && (n == |xs| ==> v.value.v == Snapped(xs))
  {
    var words := Texts(xs);
    TextsReadAs(xs);
    NothingToRead();
    ReadWords(ReadReal, words, Snapped(xs), n);
    if n < |xs| {
      NotAtEnd(ReadReal, words[n..], Snapped(xs)[n..]);
    } else if n == |xs| {
      assert Snapped(xs)[..n] == Snapped(xs) && words[n..] == [];
    }
  }

  /** An exec line is accepted exactly when its numbers are as many as it says. */
  lemma ExecLine(id: nat, n: nat, xs: seq<real>)
    ensures ParseExec(ExecArguments(id, n, xs))
      == if id <= UINT16_MAX && n <= UINT64_MAX && n == |xs| then Ok(Exec(id, Snapped(xs))) else Thrown
  {
    var numbers := Spaced(Texts(xs));
    var second := " " + (Digits(n) + numbers);
    ReadOneInteger(id, second, UINT16_MAX);
    ReadOneInteger(n, numbers, UINT64_MAX);
    if id <= UINT16_MAX && n <= UINT64_MAX {
      ExecFromParts(ExecArguments(id, n, xs), Read(id, true, second), Read(n, true, numbers));
      ReadAllNumbers(xs, n);
    }
  }

  lemma AttemptNamed(t: CommandType, arguments: string)
    requires Separated(arguments)
    ensures Attempt(t, NameOf(t) + arguments) == ParseArguments(t, arguments)
  {
    NameGiven(t, arguments);
  }

  lemma AttemptLine(c: Command)
    ensures Attempt(TypeFor(c), Line(c)) == if InRange(c) then Ok(RoundTrip.SettledCommand(c)) else Thrown
  {
    match c
    case Create(x, p) =>
      AttemptNamed(CreateEnum, CreateArguments(x, p));
      CreateLine(x, p);
    case Exec(id, k) =>
      AttemptNamed(ExecEnum, ExecArguments(id, |k|, k));
      ExecLine(id, |k|, k);
      if InRange(c) {
        assert k[..RoundTrip.Min(|k|, UINT64_MAX)] == k;
      }
    case PrintTree =>
      AttemptNamed(PrintTreeEnum, "");
      NothingToRead();
  }

  predicate Knows(types: seq<CommandType>) {
    CreateEnum in types && ExecEnum in types && PrintTreeEnum in types
  }

  /** What the parser makes of a printed command. */
  lemma ParsePrinted(types: seq<CommandType>, c: Command)
    requires Knows(types)
    ensures FirstSuccess(types, Line(c)) == if InRange(c) then Ok(RoundTrip.SettledCommand(c)) else Thrown
  {
    AttemptLine(c);
    assert TypeFor(c) in types;
    if InRange(c) {
      FirstSuccessIff(types, Line(c), RoundTrip.SettledCommand(c));
    } else if FirstSuccess(types, Line(c)).Ok? {
      var d := FirstSuccess(types, Line(c)).value;
      FirstSuccessIff(types, Line(c), d);
      var t :| t in types && Attempt(t, Line(c)) == Ok(d);
      OnlyItsType(t, c);
    }
  }

  lemma NameIsRead(t: CommandType, input: string)
    requires Attempt(t, input).Ok?
    ensures ReadWord(input).value == NameOf(t)
  {}

  lemma NameDecides(t: CommandType, u: CommandType, arguments: string)
    requires Separated(arguments) && Attempt(t, NameOf(u) + arguments).Ok?
    ensures t == u
  {
    NameIsRead(t, NameOf(u) + arguments);
    NameGiven(u, arguments);
    NamesDiffer(t, u);
  }

  lemma NameGiven(u: CommandType, arguments: string)
    requires Separated(arguments)
    ensures ReadWord(NameOf(u) + arguments) == Read(NameOf(u), true, arguments)
  {
    ReadWordOf(NameOf(u), arguments);
  }

  lemma OnlyItsType(t: CommandType, c: Command)
    requires Attempt(t, Line(c)).Ok?
    ensures t == TypeFor(c)
  {
    match c
    case Create(x, p) => NameDecides(t, CreateEnum, CreateArguments(x, p));
    case Exec(id, k) => NameDecides(t, ExecEnum, ExecArguments(id, |k|, k));
    case PrintTree => NameDecides(t, PrintTreeEnum, "");
  }

  /** Printing a command as a line and parsing it gives the command back exactly when its ids
      fit and its numbers are multiples of a millionth. */
  lemma ParsePrintIff(types: seq<CommandType>, c: Command)
    requires Knows(types)
    ensures FirstSuccess(types, Line(c)) == Ok(c) <==> WireTheorems.RepresentableCommand(c)
  {
    ParsePrinted(types, c);
    WireTheorems.SettledCommandIff(c);
  }

  // ---------------------------------------------------------------- print and what follows it

  /** A line that starts with the word print is the print command exactly when nothing but
      white space follows. */
  lemma PrintLineIff(types: seq<CommandType>, rest: string)
    requires PrintTreeEnum in types && Separated(rest)
    ensures FirstSuccess(types, "print" + rest) == if AtEnd(rest) then Ok(PrintTree) else Thrown
  {
    AttemptNamed(PrintTreeEnum, rest);
    if AtEnd(rest) {
      FirstSuccessIff(types, "print" + rest, PrintTree);
      assert Attempt(PrintTreeEnum, "print" + rest) == Ok(PrintTree);
    }
    if FirstSuccess(types, "print" + rest).Ok? {
      var d := FirstSuccess(types, "print" + rest).value;
      FirstSuccessIff(types, "print" + rest, d);
      var t :| t in types && Attempt(t, "print" + rest) == Ok(d);
      NameDecides(t, PrintTreeEnum, rest);
    }
  }

  /** The command is documented as two words, and the parser rejects it as such. */
  lemma PrintTreeIsRejected(types: seq<CommandType>)
    requires PrintTreeEnum in types
    ensures FirstSuccess(types, "print tree") == Thrown
  {
    assert "print" + " tree" == "print tree";
    assert SkipSpace(" tree") == "tree" by {
      SkipOne("tree");
    }
    PrintLineIff(types, " tree");
  }

  // ---------------------------------------------------------------- from the user to the server

  lemma AttemptInRange(t: CommandType, input: string)
    requires Attempt(t, input).Ok?
    ensures InRange(Attempt(t, input).value)
  {}

  /** Whatever line the parser accepts, the server gets that command with its numbers rounded
      to millionths; nothing is rejected or cut on the way. */
  lemma ServerSees(types: seq<CommandType>, input: string, c: Command)
    requires FirstSuccess(types, input) == Ok(c)
    ensures WireTheorems.Hop(CommandMsg(c)) == Ok(CommandMsg(match c
      case Create(_, _) => c
      case Exec(id, k) => Exec(id, Snapped(k))
      case PrintTree => c))
  {
    FirstSuccessIff(types, input, c);
    var t :| t in types && Attempt(t, input) == Ok(c);
    AttemptInRange(t, input);
    WireTheorems.CommandRoundTrip(c);
    if c.Exec? {
      assert c.k[..RoundTrip.Min(|c.k|, UINT64_MAX)] == c.k;
    }
  }
}
