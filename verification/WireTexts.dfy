/** The exact text of every kind of message, with its type names and the order of its fields. */
module WireTexts {
  import opened Messages
  import opened Decimal
  import opened Fields
  import opened Codec
  import TextStream
  import Numerals

  lemma Framed(name: string, body: string)
    ensures Frame(name, body) == name + "{" + body + "}"
  {
  }

  /** The two outer frames and the frame of the kind. */
  lemma InResponse(name: string, body: string)
    ensures Frame("Message", Frame("Response", Frame(name, body))) == "Message{Response{" + name + "{" + body + "}}}"
  {
    var inner := name + "{" + body + "}";
    Framed(name, body);
    Framed("Response", inner);
    Framed("Message", "Response{" + inner + "}");
    assert "Response" + "{" + inner + "}" == "Response{" + inner + "}";
    assert "Message" + "{" + ("Response{" + inner + "}") + "}" == "Message{Response{" + inner + "}}";
    assert "Message{Response{" + inner + "}}" == "Message{Response{" + name + "{" + body + "}" + "}}";
    assert "}" + "}}" == "}}}";
  }

  lemma InRequest(kind: string, name: string, body: string)
    ensures Frame("Message", Frame("Request", Frame(kind, Frame(name, body))))
      == "Message{Request{" + kind + "{" + name + "{" + body + "}}}}"
  {
    var inner := name + "{" + body + "}";
    var middle := kind + "{" + inner + "}";
    Framed(name, body);
    Framed(kind, inner);
    Framed("Request", middle);
    Framed("Message", "Request{" + middle + "}");
    assert "Request" + "{" + middle + "}" == "Request{" + middle + "}";
    assert "Message" + "{" + ("Request{" + middle + "}") + "}" == "Message{Request{" + middle + "}}";
    assert middle + "}}" == kind + "{" + inner + "}}}";
    assert inner + "}}}" == name + "{" + body + "}}}}";
  }

  lemma OneField(a: string)
    ensures Join([a]) == a
  {
    assert [a][1..] == [];
    assert a + "" == a;
  }

  lemma TwoFields(a: string, b: string)
    ensures Join([a, b]) == a + ", " + b
  {
    assert [a, b][1..] == [b] && [b][1..] == [];
    assert Following([b]) == ", " + (b + "");
    assert b + "" == b;
    assert a + (", " + b) == a + ", " + b;
  }

  // ---------------------------------------------------------------- responses

  /** What stands between the innermost braces of a response, after the name of its kind. */
  function ResponseBody(r: Response): (string, string) {
    match r
    case InvalidRequest => ("InvalidRequest", "")
    case AuthorizationAccepted => ("AuthorizationResponse", "AuthorizationAccepted{}")
    case AuthorizationDenied => ("AuthorizationResponse", "AuthorizationDenied{}")
    case BadCreateResp(x, p) => ("BadCreateResp", Digits(x) + ", " + Digits(p))
    case GoodCreateResp(id, pid) => ("GoodCreateResp", Digits(id) + ", " + Digits(pid))
    case BadExecResp(id) => ("BadExecResp", Digits(id))
    case GoodExecResp(id, sum) => ("GoodExecResp", Digits(id) + ", " + FixedText(sum))
    case NodeExistResponse(id) => ("NodeExistResponse", Digits(id))
    case NodeIsDeadResponse(id) => ("NodeIsDeadResponse", Digits(id))
    case Heartbeat(id, time) => ("Heartbeat", Digits(id) + ", " + Digits(time % 0x1_0000_0000_0000_0000))
  }

  lemma BodyJoined(r: Response)
    ensures ResponseName(r) == ResponseBody(r).0 && Join(ResponseFields(r)) == ResponseBody(r).1
  {
    match r
    case InvalidRequest =>
    case AuthorizationAccepted => OneField("AuthorizationAccepted{}");
    case AuthorizationDenied => OneField("AuthorizationDenied{}");
    case BadCreateResp(x, p) => TwoFields(Digits(x), Digits(p));
    case GoodCreateResp(id, pid) => TwoFields(Digits(id), Digits(pid));
    case BadExecResp(id) => OneField(Digits(id));
    case GoodExecResp(id, sum) => TwoFields(Digits(id), FixedText(sum));
    case NodeExistResponse(id) => OneField(Digits(id));
    case NodeIsDeadResponse(id) => OneField(Digits(id));
    case Heartbeat(id, time) => TwoFields(Digits(id), Digits(ToUint64(time)));
  }

  /** Every response. */
  lemma ResponseText(r: Response)
    ensures var (name, body) := ResponseBody(r);
      Encode(ResponseMsg(r)) == "Message{Response{" + name + "{" + body + "}}}"
  {
    BodyJoined(r);
    InResponse(ResponseBody(r).0, ResponseBody(r).1);
  }

  // ---------------------------------------------------------------- requests

  /** Fields that follow others: a comma and a blank in front of each. */
  function Listed(k: seq<real>): string {
    if k == [] then "" else ", " + FixedText(k[0]) + Listed(k[1..])
  }

  lemma {:induction false} ListedIs(k: seq<real>)
    ensures Following(Texts(k)) == Listed(k)
  {
    if k != [] {
      ListedIs(k[1..]);
      assert Texts(k)[1..] == Texts(k[1..]);
      assert ", " + (FixedText(k[0]) + Listed(k[1..])) == ", " + FixedText(k[0]) + Listed(k[1..]);
    }
  }

  lemma ExecFields(id: nat, k: seq<real>)
    ensures Join(CommandFields(Exec(id, k))) == Digits(id) + ", " + Digits(|k|) + Listed(k)
  {
    var fields := CommandFields(Exec(id, k));
    assert fields[1..] == [Digits(|k|)] + Texts(k) && fields[1..][1..] == Texts(k);
    ListedIs(k);
    assert Join(fields) == Digits(id) + (", " + (Digits(|k|) + Listed(k)));
  }

  /** The kind of a request, its name and what stands between the innermost braces. */
  function CommandBody(c: Command): (string, string, string) {
    match c
    case Create(x, p) => ("Command", "Create", Digits(x) + ", " + Digits(p))
    case Exec(id, k) => ("Command", "Exec", Digits(id) + ", " + Digits(|k|) + Listed(k))
    case PrintTree => ("Command", "PrintTree", "")
  }

  lemma CommandJoined(c: Command)
    ensures CommandName(c) == CommandBody(c).1 && Join(CommandFields(c)) == CommandBody(c).2
  {
    match c
    case Create(x, p) => TwoFields(Digits(x), Digits(p));
    case Exec(id, k) => ExecFields(id, k);
    case PrintTree =>
  }

  /** Every command. */
  lemma CommandText(c: Command)
    ensures var (kind, name, body) := CommandBody(c);
      Encode(CommandMsg(c)) == "Message{Request{" + kind + "{" + name + "{" + body + "}}}}"
  {
    CommandJoined(c);
    InRequest(CommandBody(c).0, CommandBody(c).1, CommandBody(c).2);
  }

  function AuthorizationBody(endpoint: string, name: string): (string, string, string) {
    ("Authorization", "AuthorizationWithName", endpoint + ", " + name)
  }

  lemma AuthorizationWire(endpoint: string, name: string)
    ensures var (kind, typeName, body) := AuthorizationBody(endpoint, name);
      Encode(AuthorizationWithName(endpoint, name)) == "Message{Request{" + kind + "{" + typeName + "{" + body + "}}}}"
  {
    TwoFields(endpoint, name);
    InRequest(AuthorizationBody(endpoint, name).0, AuthorizationBody(endpoint, name).1,
              AuthorizationBody(endpoint, name).2);
  }

  lemma KillText()
    ensures Encode(KillSignal) == "Message{KillSignal{}}"
  {
    Framed("KillSignal", "");
    Framed("Message", "KillSignal{}");
  }

  // ---------------------------------------------------------------- digits

  lemma SomeDigits()
    ensures Digits(0) == "0" && Digits(5) == "5" && Digits(42) == "42" && Digits(1987) == "1987"
  {
  }

  /** A whole message: Message{Response{GoodCreateResp{5, 42}}}. */
  lemma SomeMessage(r: Response)
    requires r == GoodCreateResp(5, 42)
    ensures Encode(ResponseMsg(r)) == "Message{Response{" + "GoodCreateResp" + "{" + ("5" + ", " + "42") + "}}}"
  {
    ResponseText(r);
    SomeDigits();
  }

  lemma SixOff(q: nat)
    ensures WithoutLast(q, PLACES) == q / 1000000
  {
    assert WithoutLast(q, 6) == WithoutLast(q / 10, 5);
    assert WithoutLast(q / 10, 5) == WithoutLast(q / 100, 4);
    assert WithoutLast(q / 100, 4) == WithoutLast(q / 1000, 3);
    assert WithoutLast(q / 1000, 3) == WithoutLast(q / 10000, 2);
    assert WithoutLast(q / 10000, 2) == WithoutLast(q / 100000, 1);
    assert WithoutLast(q / 100000, 1) == WithoutLast(q / 1000000, 0);
  }

  lemma ShiftSix(x: real)
    ensures TextStream.Shift(x, 6) == x * 1000000.0
  {
    assert TextStream.Shift(x, 6) == TextStream.Shift(x * 10.0, 5);
    assert TextStream.Shift(x * 10.0, 5) == TextStream.Shift(x * 100.0, 4);
    assert TextStream.Shift(x * 100.0, 4) == TextStream.Shift(x * 1000.0, 3);
    assert TextStream.Shift(x * 1000.0, 3) == TextStream.Shift(x * 10000.0, 2);
    assert TextStream.Shift(x * 10000.0, 2) == TextStream.Shift(x * 100000.0, 1);
    assert TextStream.Shift(x * 100000.0, 1) == TextStream.Shift(x * 1000000.0, 0);
  }

  /** A printed number: a minus sign if it is negative, the whole part, a point, and the
      millionths left as six digits. */
  lemma FixedIs(r: real) returns (frac: string)
    ensures var q := Millionths(if r < 0.0 then -r else r);
      && FixedText(r) == (if r < 0.0 then "-" else "") + (Digits(q / 1000000) + ("." + frac))
      && |frac| == 6 && TextStream.AllDigits(frac) && TextStream.Number(frac) == q % 1000000
  {
    var q := Millionths(if r < 0.0 then -r else r);
    var whole := Digits(WithoutLast(q, PLACES));
    frac := LastDigits(q, PLACES);
    LastAreDigits(q, PLACES);
    SixOff(q);
    NumberOfParts(q, PLACES);
    NumberOfDigits(q / 1000000);
    Numerals.NumberOfBoth(whole, frac);
    ShiftSix((q / 1000000) as real);
    assert q as real == (q / 1000000) as real * 1000000.0 + TextStream.Number(frac) as real;
    assert q == (q / 1000000) * 1000000 + TextStream.Number(frac);
  }
}
