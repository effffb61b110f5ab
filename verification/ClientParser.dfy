/** The command lines that a client accepts. */
module ClientParser {
  import opened Messages
  import opened TextStream
  import opened Codec

  // ---------------------------------------------------------------- one attempt

  /** check_if_stream_is_empty: only white space is left. */
  predicate AtEnd(s: string) { SkipSpace(s) == "" }

  datatype Vector<T> = Vector(v: seq<T>, rest: string)

  function Prepend<T>(v: seq<T>, more: Result<Vector<T>>): Result<Vector<T>> {
    match more
    case Thrown => Thrown
    case Ok(w) => Ok(Vector(v + w.v, w.rest))
  }

  /** n variables of one type, read one after the other. */
  function ReadVector<T>(read: string -> Read<T>, s: string, n: nat): (r: Result<Vector<T>>)
    ensures r.Ok? ==> |r.value.v| == n
    decreases n
  {
    if n == 0 then Ok(Vector([], s))
    else
      var x := read(s);
      if !x.good then Thrown else Prepend([x.value], ReadVector(read, x.rest, n - 1))
  }

  function ParseCreate(s: string): Result<Command> {
    var x := ReadUnsigned(s, UINT16_MAX);
    var p := ReadUnsigned(x.rest, UINT16_MAX);
    if x.good && p.good && AtEnd(p.rest) then Ok(Create(x.value, p.value)) else Thrown
  }

  function ParseExec(s: string): Result<Command> {
    var id := ReadUnsigned(s, UINT16_MAX);
    var n := ReadUnsigned(id.rest, UINT64_MAX);
    if !id.good || !n.good then Thrown
    else
      match ReadVector(ReadReal, n.rest, n.value)
      case Thrown => Thrown
      case Ok(v) => if AtEnd(v.rest) then Ok(Exec(id.value, v.v)) else Thrown
  }

  function ParsePrint(s: string): Result<Command> {
    if AtEnd(s) then Ok(PrintTree) else Thrown
  }

  function NameOf(t: CommandType): string {
    match t
    case CreateEnum => "create"
    case ExecEnum => "exec"
    case PrintTreeEnum => "print"
    case PassEnum => "pass"
  }

  /** What follows the command name; the pass command is not part of this model. */
  function ParseArguments(t: CommandType, s: string): Result<Command> {
    match t
    case CreateEnum => ParseCreate(s)
    case ExecEnum => ParseExec(s)
    case PrintTreeEnum => ParsePrint(s)
    case PassEnum => Thrown
  }

  function Attempt(t: CommandType, input: string): Result<Command> {
    var name := ReadWord(input);
    if name.value != NameOf(t) then Thrown else ParseArguments(t, name.rest)
  }

  /** The first type in the list for which the attempt succeeds. */
  function FirstSuccess(types: seq<CommandType>, input: string): Result<Command> {
    if types == [] then Thrown
    else if Attempt(types[0], input).Ok? then Attempt(types[0], input)
    else FirstSuccess(types[1..], input)
  }

  // ---------------------------------------------------------------- the parser object

  class Parser {
    var res: Option<Command>
    var parseHappened: bool

    /** The state of a new parser. */
    predicate Initial()
      reads this
    {
      res.None? && !parseHappened
    }

    constructor ()
      ensures Initial()
    {
      res, parseHappened := None, false;
    }

    method ReadReals(s: string, n: nat) returns (r: Result<Vector<real>>)
      ensures r == ReadVector(ReadReal, s, n)
    {
      var rest, v: seq<real> := s, [];
      PrependNothing(ReadVector(ReadReal, s, n));
      for i := 0 to n
        invariant ReadVector(ReadReal, s, n) == Prepend(v, ReadVector(ReadReal, rest, n - i))
      {
        var x := ReadReal(rest);
        OneMoreVariable(ReadReal, v, rest, n - i);
        if !x.good {
          return Thrown;
        }
        rest, v := x.rest, v + [x.value];
      }
      assert v + [] == v;
      return Ok(Vector(v, rest));
    }

    method TryParseExec(s: string) returns (r: Result<Command>)
      ensures r == ParseExec(s)
    {
      var id := ReadUnsigned(s, UINT16_MAX);
      if !id.good {
        return Thrown;
      }
      var n := ReadUnsigned(id.rest, UINT64_MAX);
      if !n.good {
        return Thrown;
      }
      var v := ReadReals(n.rest, n.value);
      return if v.Ok? && AtEnd(v.value.rest) then Ok(Exec(id.value, v.value.v)) else Thrown;
    }

    /** Throws without touching the state, or sets both fields. */
    method TryParse(t: CommandType, input: string) returns (thrown: bool)
      modifies this
      ensures match Attempt(t, input)
        case Thrown => thrown && res == old(res) && parseHappened == old(parseHappened)
        case Ok(c) => !thrown && res == Some(c) && parseHappened
    {
      var name := ReadWord(input);
      if name.value != NameOf(t) {
        return true;
      }
      var c;
      if t == ExecEnum {
        c := TryParseExec(name.rest);
      } else {
        c := ParseArguments(t, name.rest);
      }
      if c.Thrown? {
        return true;
      }
      res, parseHappened := Some(c.value), true;
      return false;
    }

    /** Whatever happens, the parser is afterwards as good as new, so that the result of a call
        cannot depend on earlier calls. */
    method Parse(types: seq<CommandType>, input: string) returns (r: Result<Command>)
      requires Initial()
      modifies this
      ensures Initial()
      ensures r == FirstSuccess(types, input)
    {
      var i := 0;
      while i < |types| && !parseHappened
        invariant 0 <= i <= |types|
        invariant if parseHappened then FirstSuccess(types, input).Ok? && res == Some(FirstSuccess(types, input).value)
          else res.None? && FirstSuccess(types, input) == FirstSuccess(types[i..], input)
        decreases |types| - i
      {
        var _ := TryParse(types[i], input);
        i := i + 1;
      }
      if !parseHappened {
        return Thrown;
      }
      r := Ok(res.value);
      res, parseHappened := None, false;
    }
  }

  lemma PrependNothing<T>(r: Result<Vector<T>>)
    ensures Prepend([], r) == r
  {
    if r.Ok? {
      assert [] + r.value.v == r.value.v;
    }
  }

  lemma PrependTwice<T>(a: seq<T>, b: seq<T>, r: Result<Vector<T>>)
    ensures Prepend(a, Prepend(b, r)) == Prepend(a + b, r)
  {
    if r.Ok? {
      assert a + (b + r.value.v) == (a + b) + r.value.v;
    }
  }

  lemma OneMoreVariable<T>(read: string -> Read<T>, v: seq<T>, s: string, n: nat)
    requires n > 0
    ensures Prepend(v, ReadVector(read, s, n)) ==
      if !read(s).good then Thrown else Prepend(v + [read(s).value], ReadVector(read, read(s).rest, n - 1))
  {
    PrependTwice(v, [read(s).value], ReadVector(read, read(s).rest, n - 1));
  }

  // ---------------------------------------------------------------- the order of the list

  lemma NamesDiffer(t: CommandType, u: CommandType)
    requires NameOf(t) == NameOf(u)
    ensures t == u
  {
    assert "exec"[0] != "pass"[0];
  }

  lemma OneAttemptSucceeds(t: CommandType, u: CommandType, input: string)
    requires Attempt(t, input).Ok? && Attempt(u, input).Ok?
    ensures t == u
  {
    NamesDiffer(t, u);
  }

  /** The result is the one successful attempt, if its type is in the list ... */
  lemma {:induction false} FirstSuccessIff(types: seq<CommandType>, input: string, c: Command)
    ensures FirstSuccess(types, input) == Ok(c) <==> exists t :: t in types && Attempt(t, input) == Ok(c)
  {
    if types != [] {
      FirstSuccessIff(types[1..], input, c);
      if Attempt(types[0], input).Ok? {
        forall t | t in types && Attempt(t, input).Ok? ensures t == types[0] {
          OneAttemptSucceeds(t, types[0], input);
        }
        assert types[0] in types;
      } else if t :| t in types && Attempt(t, input) == Ok(c) {
        assert t in types[1..];
      }
    }
  }

  /** ... so that the order of the list, and repetitions in it, do not matter. */
  lemma OrderIsIrrelevant(types: seq<CommandType>, others: seq<CommandType>, input: string)
    requires forall t :: t in types <==> t in others
    ensures FirstSuccess(types, input) == FirstSuccess(others, input)
  {
    if FirstSuccess(types, input).Ok? {
      var c := FirstSuccess(types, input).value;
      FirstSuccessIff(types, input, c);
      FirstSuccessIff(others, input, c);
    } else if FirstSuccess(others, input).Ok? {
      var c := FirstSuccess(others, input).value;
      FirstSuccessIff(types, input, c);
      FirstSuccessIff(others, input, c);
    }
  }
}
