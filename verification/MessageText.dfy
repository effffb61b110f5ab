/**
The serialization code as it runs: a text that grows by appending, and a text that is consumed
through frames and a cursor.  Every method computes what Codec says.
*/
module MessageText {
  import opened Messages
  import opened Fields
  import opened Decimal
  import opened Codec

  /** The string that serialize() passes down the class hierarchy by reference. */
  class Writer {
    var text: string

    constructor ()
      ensures text == ""
    {
      text := "";
    }

    method Append(s: string)
      modifies this
      ensures text == old(text) + s
    {
      text := text + s;
    }

    method AddHeader(name: string)
      modifies this
      ensures text == old(text) + name + "{"
    {
      text := text + name + "{";
    }

    method AddNextVariable(field: string)
      modifies this
      ensures text == old(text) + (", " + field)
    {
      text := text + (", " + field);
    }

    method CompleteSerialization()
      modifies this
      ensures text == old(text) + "}"
    {
      text := text + "}";
    }

    method SerializeCreate(x: nat, p: nat)
      modifies this
      ensures text == old(text) + Frame("Create", Join(CommandFields(Create(x, p))))
    {
      AddHeader("Create");
      Append(Digits(x));
      AddNextVariable(Digits(p));
      CompleteSerialization();
      JoinTwo(Digits(x), Digits(p));
      Framed(old(text), "Create", Join(CommandFields(Create(x, p))));
    }

    method SerializeExec(id: nat, k: seq<real>)
      modifies this
      ensures text == old(text) + Frame("Exec", Join(CommandFields(Exec(id, k))))
    {
      AddHeader("Exec");
      Append(Digits(id));
      AddNextVariable(Digits(|k|));
      JoinTwo(Digits(id), Digits(|k|));
      ghost var head := [Digits(id), Digits(|k|)];
      assert head + Texts(k[..0]) == head;
      assert text == old(text) + "Exec" + "{" + Join(head + Texts(k[..0]));
      for i := 0 to |k|
        invariant text == old(text) + "Exec" + "{" + Join(head + Texts(k[..i]))
      {
        AddNextVariable(FixedText(k[i]));
        OneMoreNumber(old(text) + "Exec" + "{", head, k, i);
      }
      assert k[..|k|] == k;
      CompleteSerialization();
      Framed(old(text), "Exec", Join(CommandFields(Exec(id, k))));
    }

    method SerializePrintTree()
      modifies this
      ensures text == old(text) + Frame("PrintTree", "")
    {
      AddHeader("PrintTree");
      CompleteSerialization();
      Framed(old(text), "PrintTree", "");
    }

    method SerializeCommand(c: Command)
      modifies this
      ensures text == old(text) + Frame(CommandName(c), Join(CommandFields(c)))
    {
      match c
      case Create(x, p) => SerializeCreate(x, p);
      case Exec(id, k) => SerializeExec(id, k);
      case PrintTree => SerializePrintTree();
    }

    method SerializeAuthorization(endpoint: string, name: string)
      modifies this
      ensures text == old(text) + Frame("AuthorizationWithName", Join([endpoint, name]))
    {
      AddHeader("AuthorizationWithName");
      Append(endpoint);
      AddNextVariable(name);
      CompleteSerialization();
      JoinTwo(endpoint, name);
      Framed(old(text), "AuthorizationWithName", Join([endpoint, name]));
    }

    /** Header, fields, closing brace: the same for every kind of response. */
    method SerializeFields(name: string, fields: seq<string>)
      modifies this
      ensures text == old(text) + Frame(name, Join(fields))
    {
      AddHeader(name);
      if fields != [] {
        Append(fields[0]);
        FirstVariable(fields);
        for i := 1 to |fields|
          invariant text == old(text) + name + "{" + Join(fields[..i])
        {
          AddNextVariable(fields[i]);
          OneMoreVariable(old(text) + name + "{", fields, i);
        }
        assert fields[..|fields|] == fields;
      }
      CompleteSerialization();
      Framed(old(text), name, Join(fields));
    }

    method SerializeCommandRequest(c: Command)
      modifies this
      ensures text == old(text) + Payload(CommandMsg(c))
    {
      AddHeader("Request");
      AddHeader("Command");
      SerializeCommand(c);
      CompleteSerialization();
      ghost var inner := Frame(CommandName(c), Join(CommandFields(c)));
      Framed(old(text) + "Request" + "{", "Command", inner);
      CompleteSerialization();
      Framed(old(text), "Request", Frame("Command", inner));
    }

    method SerializeAuthorizationRequest(endpoint: string, name: string)
      modifies this
      ensures text == old(text) + Payload(AuthorizationWithName(endpoint, name))
    {
      AddHeader("Request");
      AddHeader("Authorization");
      SerializeAuthorization(endpoint, name);
      CompleteSerialization();
      ghost var inner := Frame("AuthorizationWithName", Join([endpoint, name]));
      Framed(old(text) + "Request" + "{", "Authorization", inner);
      CompleteSerialization();
      Framed(old(text), "Request", Frame("Authorization", inner));
    }

    method SerializeResponse(r: Response)
      modifies this
      ensures text == old(text) + Payload(ResponseMsg(r))
    {
      AddHeader("Response");
      SerializeFields(ResponseName(r), ResponseFields(r));
      CompleteSerialization();
      Framed(old(text), "Response", Frame(ResponseName(r), Join(ResponseFields(r))));
    }

    method SerializeKillSignal()
      modifies this
      ensures text == old(text) + Payload(KillSignal)
    {
      AddHeader("KillSignal");
      CompleteSerialization();
      Framed(old(text), "KillSignal", "");
    }

    method Serialize(m: Message)
      modifies this
      ensures text == old(text) + Encode(m)
    {
      AddHeader("Message");
      match m {
        case CommandMsg(c) => SerializeCommandRequest(c);
        case AuthorizationWithName(endpoint, name) => SerializeAuthorizationRequest(endpoint, name);
        case ResponseMsg(r) => SerializeResponse(r);
        case KillSignal => SerializeKillSignal();
      }
      CompleteSerialization();
      Framed(old(text), "Message", Payload(m));
    }
  }

  /** The text that deserialize() takes apart, and the cursor of its field readers. */
  class Reader {
    var text: string
    var pos: nat

    constructor (text: string)
      ensures this.text == text && pos == 0
    {
      this.text, pos := text, 0;
    }

    method ExtractType() returns (name: string)
      modifies `text
      ensures (name, text) == Unframe(old(text))
    {
      match Find(text, '{', 0)
      case None =>
        name := "";
      case Some(p) =>
        name := text[..p];
        text := if p + 1 < |text| then text[p + 1..|text| - 1] else "";
    }

    method FindStartOfClassVars()
      modifies `pos
      ensures pos == StartOfFields(text)
    {
      match Find(text, '{', 0)
      case None => pos := 0;
      case Some(p) => pos := p + 1;
    }

    /** Moves the cursor behind the field it returns. */
    method GetNextVarString() returns (r: Result<string>)
      modifies `pos
      ensures match NextField(text, old(pos))
        case Thrown => r == Thrown
        case Ok(f) => r == Ok(f.text) && pos == f.next
    {
      match Find(text, ',', pos)
      case None =>
        r := if pos <= |text| then Ok(text[pos..]) else Thrown;
        pos := |text|;
      case Some(edge) =>
        r := Ok(text[pos..edge]);
        pos := edge + 2;
    }

    /** The two variables that every message with more than one of them starts with. */
    method GetTwoVars() returns (r: Result<(string, string)>)
      modifies `pos
      ensures match Vars(text, 2)
        case Thrown => r == Thrown
        case Ok(f) => r == Ok((f.texts[0], f.texts[1])) && pos == f.next
    {
      FindStartOfClassVars();
      ghost var start := pos;
      ReadTwo(text, start);
      var a := GetNextVarString();
      if a.Thrown? {
        return Thrown;
      }
      var b := GetNextVarString();
      return if b.Thrown? then Thrown else Ok((a.value, b.value));
    }

    method DeserializeCreate() returns (r: Result<Command>)
      modifies `pos
      ensures r == DecodeCreate(text)
    {
      var vars := GetTwoVars();
      return if vars.Thrown? then Thrown
        else Ok(Create(Uint(vars.value.0, UINT16_MAX), Uint(vars.value.1, UINT16_MAX)));
    }

    /** The numbers of an exec command, as many as its count says. */
    method ReadDoubles(n: nat) returns (k: Result<seq<real>>)
      modifies `pos
      ensures k == match ReadFields(text, old(pos), n) case Thrown => Thrown case Ok(f) => Ok(Doubles(f.texts))
    {
      var numbers: seq<real> := [];
      ghost var start, read := pos, [];
      assert ReadFields(text, start, 0) == Ok(FieldList(read, pos));
      for i := 0 to n
        invariant |read| == i && numbers == Doubles(read)
        invariant ReadFields(text, start, i) == Ok(FieldList(read, pos))
      {
        ghost var before := pos;
        var field := GetNextVarString();
        OneMoreField(text, start, i, n, read, before);
        if field.Thrown? {
          return Thrown;
        }
        numbers := numbers + [Double(field.value)];
        read := read + [field.value];
      }
      return Ok(numbers);
    }

    method DeserializeExec() returns (r: Result<Command>)
      modifies `pos
      ensures r == DecodeExec(text)
    {
      var vars := GetTwoVars();
      if vars.Thrown? {
        return Thrown;
      }
      var k := ReadDoubles(Uint(vars.value.1, UINT64_MAX));
      match k
      case Thrown => r := Thrown;
      case Ok(numbers) => r := Ok(Exec(Uint(vars.value.0, UINT16_MAX), numbers));
    }

    method DeserializeCommand() returns (r: Result<Command>)
      modifies this
      ensures r == DecodeCommand(old(text))
    {
      var name := ExtractType();
      match CommandTypeOf(name)
      case None => r := Thrown;
      case Some(CreateEnum) => r := DeserializeCreate();
      case Some(ExecEnum) => r := DeserializeExec();
      case Some(PrintTreeEnum) => r := Ok(PrintTree);
      case Some(PassEnum) => r := Thrown;
    }

    method DeserializeAuthorization() returns (r: Result<Message>)
      modifies this
      ensures r == DecodeAuthorization(old(text))
    {
      var name := ExtractType();
      if name != "AuthorizationWithName" {
        return Thrown;
      }
      var vars := GetTwoVars();
      return if vars.Thrown? then Thrown else Ok(AuthorizationWithName(Word(vars.value.0), Word(vars.value.1)));
    }

    method DeserializeRequest() returns (r: Result<Message>)
      modifies this
      ensures r == DecodeRequest(old(text))
    {
      var name := ExtractType();
      match RequestTypeOf(name)
      case None =>
        r := Thrown;
      case Some(CommandEnum) =>
        var c := DeserializeCommand();
        r := if c.Thrown? then Thrown else Ok(CommandMsg(c.value));
      case Some(AuthorizationEnum) =>
        r := DeserializeAuthorization();
    }

    method DeserializeAnswer() returns (r: Result<Response>)
      modifies this
      ensures r == DecodeAnswer(old(text))
    {
      var name := ExtractType();
      r := if name == "AuthorizationAccepted" then Ok(AuthorizationAccepted)
      else if name == "AuthorizationDenied" then Ok(AuthorizationDenied)
      else Thrown;
    }

    /** The kinds of response that consist of one or two variables. */
    method DeserializeVars(t: ResponseType) returns (r: Result<Response>)
      requires FieldCount(t) > 0
      modifies `pos
      ensures match Vars(text, FieldCount(t))
        case Thrown => r == Thrown
        case Ok(f) => r == Ok(MakeResponse(t, f.texts))
    {
      if FieldCount(t) == 1 {
        FindStartOfClassVars();
        ReadOne(text, pos);
        var id := GetNextVarString();
        r := if id.Thrown? then Thrown else Ok(MakeFromId(t, id.value));
      } else {
        var vars := GetTwoVars();
        r := if vars.Thrown? then Thrown else Ok(MakeFromTwo(t, vars.value.0, vars.value.1));
      }
    }

    method DeserializeResponse() returns (r: Result<Response>)
      modifies this
      ensures r == DecodeResponse(old(text))
    {
      var name := ExtractType();
      match ResponseTypeOf(name)
      case None =>
        r := Thrown;
      case Some(t) =>
        if t == AuthorizationResponseEnum {
          r := DeserializeAnswer();
        } else if t == InvalidRequestEnum {
          r := Ok(InvalidRequest);
        } else {
          r := DeserializeVars(t);
        }
    }

    method Deserialize() returns (r: Result<Message>)
      modifies this
      ensures r == Decode(old(text))
    {
      var name := ExtractType();
      if name != "Message" {
        return Thrown;
      }
      var kind := ExtractType();
      match MessageTypeOf(kind)
      case None =>
        r := Thrown;
      case Some(RequestEnum) =>
        r := DeserializeRequest();
      case Some(ResponseEnum) =>
        var response := DeserializeResponse();
        r := if response.Thrown? then Thrown else Ok(ResponseMsg(response.value));
      case Some(KillSignalEnum) =>
        r := Ok(KillSignal);
    }
  }

  /** One step of the reading loop: a field that throws makes the whole list throw. */
  lemma OneMoreField(text: string, start: nat, i: nat, n: nat, read: seq<string>, pos: nat)
    requires i < n && ReadFields(text, start, i) == Ok(FieldList(read, pos))
    ensures match NextField(text, pos)
      case Thrown => ReadFields(text, start, n) == Thrown
      case Ok(f) => ReadFields(text, start, i + 1) == Ok(FieldList(read + [f.text], f.next))
  {
    ReadInTwo(text, start, i, 1);
    ReadOne(text, pos);
    ReadInTwo(text, start, i, n - i);
  }

  lemma Framed(before: string, name: string, body: string)
    ensures before + name + "{" + body + "}" == before + Frame(name, body)
  {}

  lemma JoinTwo(a: string, b: string)
    ensures Join([a, b]) == a + (", " + b)
  {
    assert [a] + [b] == [a, b];
    assert [a][1..] == [];
    assert Join([a]) == a + "" == a;
    JoinAppend([a], b);
  }

  lemma FirstVariable(fields: seq<string>)
    requires fields != []
    ensures Join(fields[..1]) == fields[0]
  {
    assert fields[..1][1..] == [];
    assert fields[0] + "" == fields[0];
  }

  lemma OneMoreVariable(before: string, fields: seq<string>, i: nat)
    requires 0 < i < |fields|
    ensures before + Join(fields[..i]) + (", " + fields[i]) == before + Join(fields[..i + 1])
  {
    JoinAppend(fields[..i], fields[i]);
    assert fields[..i + 1] == fields[..i] + [fields[i]];
  }

  lemma OneMoreNumber(before: string, head: seq<string>, k: seq<real>, i: nat)
    requires head != [] && i < |k|
    ensures before + Join(head + Texts(k[..i])) + (", " + FixedText(k[i])) == before + Join(head + Texts(k[..i + 1]))
  {
    var t := Texts(k[..i]);
    OneMoreText(k, i);
    JoinAppend(head + t, FixedText(k[i]));
    assert head + (t + [FixedText(k[i])]) == (head + t) + [FixedText(k[i])];
    Associates(before, Join(head + t), ", " + FixedText(k[i]));
  }

  lemma OneMoreText(k: seq<real>, i: nat)
    requires i < |k|
    ensures Texts(k[..i + 1]) == Texts(k[..i]) + [FixedText(k[i])]
  {
  }

  lemma Associates(a: string, b: string, c: string)
    ensures a + b + c == a + (b + c)
  {
  }
}
