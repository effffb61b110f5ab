/**
Reading back what was written: which messages survive, and what becomes of the others.
*/
module RoundTrip {
  import opened Messages
  import opened Fields
  import opened Decimal
  import opened Codec
  import opened Rounding

  // ---------------------------------------------------------------- what comes back

  function Min(a: nat, b: nat): nat { if a <= b then a else b }

  function SettledCommand(c: Command): Command {
    match c
    case Create(x, p) => Create(Min(x, UINT16_MAX), Min(p, UINT16_MAX))
    case Exec(id, k) => Exec(Min(id, UINT16_MAX), Snapped(k[..Min(|k|, UINT64_MAX)]))
    case PrintTree => PrintTree
  }

  function SettledResponse(r: Response): Response {
    match r
    case InvalidRequest => r
    case AuthorizationAccepted => r
    case AuthorizationDenied => r
    case BadCreateResp(x, p) => BadCreateResp(Min(x, UINT64_MAX), Min(p, UINT64_MAX))
    case GoodCreateResp(id, pid) => GoodCreateResp(Min(id, UINT64_MAX), Min(pid, UINT64_MAX))
    case BadExecResp(id) => BadExecResp(Min(id, UINT64_MAX))
    case GoodExecResp(id, sum) => GoodExecResp(Min(id, UINT64_MAX), Snap(sum))
    case NodeExistResponse(id) => NodeExistResponse(Min(id, UINT64_MAX))
    case NodeIsDeadResponse(id) => NodeIsDeadResponse(Min(id, UINT64_MAX))
    case Heartbeat(id, time) => Heartbeat(Min(id, UINT64_MAX), FromUint64(ToUint64(time)))
  }

  // ---------------------------------------------------------------- fields

  lemma DigitsPlain(n: nat, max: nat)
    ensures PlainField(Digits(n))
    ensures Uint(Digits(n), max) == Min(n, max)
  {
    DigitsAreDigits(n);
    ReadDigits(n, "", max);
    assert Digits(n) + "" == Digits(n);
  }

  lemma FixedPlain(r: real)
    ensures PlainField(FixedText(r))
    ensures Double(FixedText(r)) == Snap(r)
  {
    forall c | c in FixedText(r) ensures c != '{' && c != ',' {
      FixedTextChars(r, c);
    }
    ReadFixed(r, "");
    assert FixedText(r) + "" == FixedText(r);
  }

  lemma VarsBack(vs: seq<string>)
    requires Plain(vs) && vs != []
    ensures Vars(Join(vs), |vs|) == Ok(FieldList(vs, |Join(vs)|))
  {
    ReadPlain(vs);
  }

  lemma TimeBits(time: int)
    ensures ToUint64(time) <= UINT64_MAX
    ensures FromUint64(ToUint64(time)) == time <==> 0 - TWO_63 <= time < TWO_63
  {}

  // ---------------------------------------------------------------- commands

  lemma CreateFrom(body: string, f: FieldList, x: nat, p: nat)
    requires |f.texts| == 2 && Vars(body, 2) == Ok(f)
    requires Uint(f.texts[0], UINT16_MAX) == x && Uint(f.texts[1], UINT16_MAX) == p
    ensures DecodeCreate(body) == Ok(Create(x, p))
  {}

  lemma PlainPair(a: string, b: string, rest: seq<string>)
    requires PlainField(a) && PlainField(b) && Plain(rest)
    ensures Plain([a, b] + rest) && Plain([a, b])
  {
    forall vs, i | (vs == [a, b] || vs == [a, b] + rest) && 0 <= i < |vs| ensures PlainField(vs[i]) {
      assert vs[0] == a && vs[1] == b && (i >= 2 ==> vs[i] == rest[i - 2]);
    }
  }

  lemma CreateBack(a: string, b: string, x: nat, p: nat, vs: seq<string>)
    requires vs == [a, b] && Plain(vs)
    requires Uint(a, UINT16_MAX) == x && Uint(b, UINT16_MAX) == p
    ensures DecodeCreate(Join(vs)) == Ok(Create(x, p))
  {
    VarsBack(vs);
    CreateFrom(Join(vs), FieldList(vs, |Join(vs)|), x, p);
  }

  lemma TextsPlain(k: seq<real>)
    ensures Plain(Texts(k)) && Doubles(Texts(k)) == Snapped(k)
  {
    forall i | 0 <= i < |k|
      ensures PlainField(Texts(k)[i]) && Doubles(Texts(k))[i] == Snapped(k)[i]
    {
      FixedPlain(k[i]);
    }
  }

  /** However many numbers there are, a prefix of the written ones can be read. */
  lemma ReadSome(vs: seq<string>, n: nat, m: nat)
    requires Plain(vs) && vs != [] && n + m <= |vs|
    ensures Vars(Join(vs), n).Ok? && Vars(Join(vs), n).value.texts == vs[..n]
    ensures var r := ReadFields(Join(vs), Vars(Join(vs), n).value.next, m);
      r.Ok? && r.value.texts == vs[n..n + m]
  {
    ReadPlain(vs);
    ReadRange(Join(vs), vs, n, m);
  }

  lemma ExecFrom(body: string, f: FieldList, g: FieldList, id: nat, n: nat)
    requires |f.texts| == 2 && Vars(body, 2) == Ok(f)
    requires Uint(f.texts[0], UINT16_MAX) == id && Uint(f.texts[1], UINT64_MAX) == n
    requires ReadFields(body, f.next, n) == Ok(g)
    ensures DecodeExec(body) == Ok(Exec(id, Doubles(g.texts)))
  {}

  lemma ExecBack(a: string, b: string, k: seq<real>, id: nat, n: nat, vs: seq<string>)
    requires vs == [a, b] + Texts(k) && Plain(vs) && n <= |k|
    requires Uint(a, UINT16_MAX) == id && Uint(b, UINT64_MAX) == n
    ensures DecodeExec(Join(vs)) == Ok(Exec(id, Snapped(k[..n])))
  {
    ReadSome(vs, 2, n);
    TextsPlain(k[..n]);
    var f := Vars(Join(vs), 2).value;
    var g := ReadFields(Join(vs), f.next, n).value;
    assert f.texts == [a, b];
    assert g.texts == Texts(k[..n]);
    ExecFrom(Join(vs), f, g, id, n);
  }

  lemma CreateFieldsBack(x: nat, p: nat)
    ensures DecodeCreate(Join(CommandFields(Create(x, p)))) == Ok(SettledCommand(Create(x, p)))
  {
    DigitsPlain(x, UINT16_MAX);
    DigitsPlain(p, UINT16_MAX);
    PlainPair(Digits(x), Digits(p), []);
    CreateBack(Digits(x), Digits(p), Min(x, UINT16_MAX), Min(p, UINT16_MAX), CommandFields(Create(x, p)));
  }

  lemma ExecFieldsBack(id: nat, k: seq<real>)
    ensures DecodeExec(Join(CommandFields(Exec(id, k)))) == Ok(SettledCommand(Exec(id, k)))
  {
    DigitsPlain(id, UINT16_MAX);
    DigitsPlain(|k|, UINT64_MAX);
    TextsPlain(k);
    PlainPair(Digits(id), Digits(|k|), Texts(k));
    ExecBack(Digits(id), Digits(|k|), k, Min(id, UINT16_MAX), Min(|k|, UINT64_MAX), CommandFields(Exec(id, k)));
  }

  function CommandTypeFor(c: Command): CommandType {
    match c
    case Create(_, _) => CreateEnum
    case Exec(_, _) => ExecEnum
    case PrintTree => PrintTreeEnum
  }

  lemma CommandTypeByName(c: Command)
    ensures '{' !in CommandName(c)
    ensures CommandTypeOf(CommandName(c)) == Some(CommandTypeFor(c))
  {}

  lemma CommandOfType(name: string, body: string, t: CommandType)
    requires '{' !in name && CommandTypeOf(name) == Some(t)
    ensures t.CreateEnum? ==> DecodeCommand(Frame(name, body)) == DecodeCreate(body)
    ensures t.ExecEnum? ==> DecodeCommand(Frame(name, body)) == DecodeExec(body)
    ensures t.PrintTreeEnum? ==> DecodeCommand(Frame(name, body)) == Ok(PrintTree)
  {
    UnframeFrame(name, body);
  }

  lemma CommandBack(c: Command)
    ensures DecodeCommand(Frame(CommandName(c), Join(CommandFields(c)))) == Ok(SettledCommand(c))
  {
    CommandTypeByName(c);
    CommandOfType(CommandName(c), Join(CommandFields(c)), CommandTypeFor(c));
    match c
    case Create(x, p) => CreateFieldsBack(x, p);
    case Exec(id, k) => ExecFieldsBack(id, k);
    case PrintTree =>
  }

  // ---------------------------------------------------------------- responses

  lemma TypeByName(r: Response)
    ensures '{' !in ResponseName(r)
    ensures ResponseTypeOf(ResponseName(r)) == Some(TypeOf(r))
  {
    assert "GoodCreateResp"[0] != "InvalidRequest"[0];
    assert "NodeExistResponse" != "AuthorizationResponse";
  }

  lemma ResponseFrom(name: string, vs: seq<string>, t: ResponseType)
    requires '{' !in name && ResponseTypeOf(name) == Some(t) && t != AuthorizationResponseEnum
    requires Plain(vs) && |vs| == FieldCount(t)
    ensures DecodeResponse(Frame(name, Join(vs))) == Ok(MakeResponse(t, vs))
  {
    UnframeFrame(name, Join(vs));
    if vs != [] {
      VarsBack(vs);
    }
  }

  lemma OnePlain(a: string)
    requires PlainField(a)
    ensures Plain([a])
  {}

  lemma IdBack(name: string, t: ResponseType, id: nat)
    requires '{' !in name && ResponseTypeOf(name) == Some(t) && FieldCount(t) == 1
    ensures DecodeResponse(Frame(name, Join([Digits(id)]))) == Ok(MakeResponse(t, [Digits(id)]))
    ensures Uint(Digits(id), UINT64_MAX) == Min(id, UINT64_MAX)
  {
    DigitsPlain(id, UINT64_MAX);
    OnePlain(Digits(id));
    ResponseFrom(name, [Digits(id)], t);
  }

  lemma PairBack(name: string, t: ResponseType, id: nat, b: string)
    requires '{' !in name && ResponseTypeOf(name) == Some(t) && FieldCount(t) == 2 && PlainField(b)
    ensures DecodeResponse(Frame(name, Join([Digits(id), b]))) == Ok(MakeResponse(t, [Digits(id), b]))
    ensures Uint(Digits(id), UINT64_MAX) == Min(id, UINT64_MAX)
  {
    DigitsPlain(id, UINT64_MAX);
    PlainPair(Digits(id), b, []);
    ResponseFrom(name, [Digits(id), b], t);
  }

  lemma AnswerBack(name: string)
    requires '{' !in name
    ensures DecodeResponse(Frame("AuthorizationResponse", Join([Frame(name, "")]))) == DecodeAnswer(Frame(name, ""))
    ensures Unframe(Frame(name, "")) == (name, "")
  {
    UnframeFrame(name, "");
    TypeByName(AuthorizationAccepted);
    assert Join([Frame(name, "")]) == Frame(name, "");
    UnframeFrame("AuthorizationResponse", Frame(name, ""));
  }

  lemma PairResponseBack(r: Response)
    requires FieldCount(TypeOf(r)) == 2
    ensures DecodeResponse(Frame(ResponseName(r), Join(ResponseFields(r)))) == Ok(SettledResponse(r))
  {
    TypeByName(r);
    match r
    case BadCreateResp(x, p) => DigitsPlain(p, UINT64_MAX); PairBack(ResponseName(r), TypeOf(r), x, Digits(p));
    case GoodCreateResp(id, p) => DigitsPlain(p, UINT64_MAX); PairBack(ResponseName(r), TypeOf(r), id, Digits(p));
    case GoodExecResp(id, sum) => FixedPlain(sum); PairBack(ResponseName(r), TypeOf(r), id, FixedText(sum));
    case Heartbeat(id, time) =>
      var bits := ToUint64(time);
      DigitsPlain(bits, UINT64_MAX);
      PairBack(ResponseName(r), TypeOf(r), id, Digits(bits));
  }

  lemma ResponseBack(r: Response)
    ensures DecodeResponse(Frame(ResponseName(r), Join(ResponseFields(r)))) == Ok(SettledResponse(r))
  {
    TypeByName(r);
    match r
    case InvalidRequest => ResponseFrom(ResponseName(r), [], TypeOf(r));
    case AuthorizationAccepted => AnswerBack("AuthorizationAccepted");
    case AuthorizationDenied => AnswerBack("AuthorizationDenied");
    case BadExecResp(id) => IdBack(ResponseName(r), TypeOf(r), id);
    case NodeExistResponse(id) => IdBack(ResponseName(r), TypeOf(r), id);
    case NodeIsDeadResponse(id) => IdBack(ResponseName(r), TypeOf(r), id);
    case _ => PairResponseBack(r);
  }
}
