/**
The wire format: what serialize() writes and what Message::deserialize() makes of a text.
*/
module Codec {
  import opened Messages
  import opened Fields
  import opened Decimal
  import TextStream

  const UINT16_MAX: nat := 0xffff
  const UINT64_MAX: nat := 0xffff_ffff_ffff_ffff
  const TWO_63: nat := 0x8000_0000_0000_0000

  // ---------------------------------------------------------------- writing

  function Texts(k: seq<real>): (texts: seq<string>)
    ensures |texts| == |k|
  {
    seq(|k|, i requires 0 <= i < |k| => FixedText(k[i]))
  }

  /** The 64-bit pattern of a clock count. */
  function ToUint64(time: int): nat { time % (UINT64_MAX + 1) }

  function CommandName(c: Command): string {
    match c
    case Create(_, _) => "Create"
    case Exec(_, _) => "Exec"
    case PrintTree => "PrintTree"
  }

  function CommandFields(c: Command): seq<string> {
    match c
    case Create(x, p) => [Digits(x), Digits(p)]
    case Exec(id, k) => [Digits(id), Digits(|k|)] + Texts(k)
    case PrintTree => []
  }

  function ResponseName(r: Response): string {
    match r
    case InvalidRequest => "InvalidRequest"
    case AuthorizationAccepted => "AuthorizationResponse"
    case AuthorizationDenied => "AuthorizationResponse"
    case BadCreateResp(_, _) => "BadCreateResp"
    case GoodCreateResp(_, _) => "GoodCreateResp"
    case BadExecResp(_) => "BadExecResp"
    case GoodExecResp(_, _) => "GoodExecResp"
    case NodeExistResponse(_) => "NodeExistResponse"
    case NodeIsDeadResponse(_) => "NodeIsDeadResponse"
    case Heartbeat(_, _) => "Heartbeat"
  }

  function ResponseFields(r: Response): seq<string> {
    match r
    case InvalidRequest => []
    case AuthorizationAccepted => [Frame("AuthorizationAccepted", "")]
    case AuthorizationDenied => [Frame("AuthorizationDenied", "")]
    case BadCreateResp(x, p) => [Digits(x), Digits(p)]
    case GoodCreateResp(id, pid) => [Digits(id), Digits(pid)]
    case BadExecResp(id) => [Digits(id)]
    case GoodExecResp(id, sum) => [Digits(id), FixedText(sum)]
    case NodeExistResponse(id) => [Digits(id)]
    case NodeIsDeadResponse(id) => [Digits(id)]
    case Heartbeat(id, time) => [Digits(id), Digits(ToUint64(time))]
  }

  function Payload(m: Message): string {
    match m
    case CommandMsg(c) => Frame("Request", Frame("Command", Frame(CommandName(c), Join(CommandFields(c)))))
    case AuthorizationWithName(endpoint, name) =>
      Frame("Request", Frame("Authorization", Frame("AuthorizationWithName", Join([endpoint, name]))))
    case ResponseMsg(r) => Frame("Response", Frame(ResponseName(r), Join(ResponseFields(r))))
    case KillSignal => Frame("KillSignal", "")
  }

  function Encode(m: Message): string { Frame("Message", Payload(m)) }

  // ---------------------------------------------------------------- reading

  function Uint(field: string, max: nat): nat { TextStream.ReadUnsigned(field, max).value }

  function Double(field: string): real { TextStream.ReadReal(field).value }

  function Word(field: string): string { TextStream.ReadWord(field).value }

  function Doubles(fields: seq<string>): (k: seq<real>)
    ensures |k| == |fields|
  {
    seq(|fields|, i requires 0 <= i < |fields| => Double(fields[i]))
  }

  /** The clock count of a 64-bit pattern. */
  function FromUint64(v: nat): int { if v < TWO_63 then v else v - (UINT64_MAX + 1) }

  /** The first n fields of a body. */
  function Vars(body: string, n: nat): (r: Result<FieldList>)
    ensures r.Ok? ==> |r.value.texts| == n
  {
    ReadFields(body, StartOfFields(body), n)
  }

  function DecodeCreate(body: string): Result<Command> {
    match Vars(body, 2)
    case Thrown => Thrown
    case Ok(f) => Ok(Create(Uint(f.texts[0], UINT16_MAX), Uint(f.texts[1], UINT16_MAX)))
  }

  /** The count that follows the id says how many numbers to read. */
  function DecodeExec(body: string): Result<Command> {
    match Vars(body, 2)
    case Thrown => Thrown
    case Ok(f) =>
      match ReadFields(body, f.next, Uint(f.texts[1], UINT64_MAX))
      case Thrown => Thrown
      case Ok(g) => Ok(Exec(Uint(f.texts[0], UINT16_MAX), Doubles(g.texts)))
  }

  datatype CommandType = CreateEnum | ExecEnum | PrintTreeEnum | PassEnum

  function CommandTypeOf(name: string): Option<CommandType> {
    if name == "Create" then Some(CreateEnum)
    else if name == "Exec" then Some(ExecEnum)
    else if name == "PrintTree" then Some(PrintTreeEnum)
    else if name == "Pass" then Some(PassEnum)
    else None
  }

  function DecodeCommand(s: string): Result<Command> {
    var (name, body) := Unframe(s);
    match CommandTypeOf(name)
    case None => Thrown
    case Some(CreateEnum) => DecodeCreate(body)
    case Some(ExecEnum) => DecodeExec(body)
    case Some(PrintTreeEnum) => Ok(PrintTree)
    case Some(PassEnum) => Thrown  // the command itself is not part of this model
  }

  function DecodeNameAndEndpoint(body: string): Result<Message> {
    match Vars(body, 2)
    case Thrown => Thrown
    case Ok(f) => Ok(AuthorizationWithName(Word(f.texts[0]), Word(f.texts[1])))
  }

  function DecodeAuthorization(s: string): Result<Message> {
    var (name, body) := Unframe(s);
    if name != "AuthorizationWithName" then Thrown else DecodeNameAndEndpoint(body)
  }

  datatype RequestType = CommandEnum | AuthorizationEnum

  function RequestTypeOf(name: string): Option<RequestType> {
    if name == "Command" then Some(CommandEnum)
    else if name == "Authorization" then Some(AuthorizationEnum)
    else None
  }

  function AsCommandMsg(c: Result<Command>): Result<Message> {
    match c
    case Thrown => Thrown
    case Ok(cmd) => Ok(CommandMsg(cmd))
  }

  function DecodeRequest(s: string): Result<Message> {
    var (name, body) := Unframe(s);
    match RequestTypeOf(name)
    case None => Thrown
    case Some(CommandEnum) => AsCommandMsg(DecodeCommand(body))
    case Some(AuthorizationEnum) => DecodeAuthorization(body)
  }

  function DecodeAnswer(s: string): Result<Response> {
    var (name, _) := Unframe(s);
    if name == "AuthorizationAccepted" then Ok(AuthorizationAccepted)
    else if name == "AuthorizationDenied" then Ok(AuthorizationDenied)
    else Thrown
  }

  datatype ResponseType =
    | InvalidRequestEnum | AuthorizationResponseEnum
    | BadCreateRespEnum | GoodCreateRespEnum | BadExecRespEnum | GoodExecRespEnum
    | NodeExistResponseEnum | NodeIsDeadResponseEnum | HeartbeatEnum

  function ResponseTypeOf(name: string): Option<ResponseType> {
    if name == "InvalidRequest" then Some(InvalidRequestEnum)
    else if name == "AuthorizationResponse" then Some(AuthorizationResponseEnum)
    else if name == "BadCreateResp" then Some(BadCreateRespEnum)
    else if name == "GoodCreateResp" then Some(GoodCreateRespEnum)
    else if name == "BadExecResp" then Some(BadExecRespEnum)
    else if name == "GoodExecResp" then Some(GoodExecRespEnum)
    else if name == "NodeExistResponse" then Some(NodeExistResponseEnum)
    else if name == "NodeIsDeadResponse" then Some(NodeIsDeadResponseEnum)
    else if name == "Heartbeat" then Some(HeartbeatEnum)
    else None
  }

  function TypeOf(r: Response): ResponseType {
    match r
    case InvalidRequest => InvalidRequestEnum
    case AuthorizationAccepted => AuthorizationResponseEnum
    case AuthorizationDenied => AuthorizationResponseEnum
    case BadCreateResp(_, _) => BadCreateRespEnum
    case GoodCreateResp(_, _) => GoodCreateRespEnum
    case BadExecResp(_) => BadExecRespEnum
    case GoodExecResp(_, _) => GoodExecRespEnum
    case NodeExistResponse(_) => NodeExistResponseEnum
    case NodeIsDeadResponse(_) => NodeIsDeadResponseEnum
    case Heartbeat(_, _) => HeartbeatEnum
  }

  function FieldCount(t: ResponseType): nat {
    match t
    case InvalidRequestEnum => 0
    case AuthorizationResponseEnum => 0
    case BadExecRespEnum => 1
    case NodeExistResponseEnum => 1
    case NodeIsDeadResponseEnum => 1
    case _ => 2
  }

  function MakeFromId(t: ResponseType, id: string): Response
    requires FieldCount(t) == 1
  {
    match t
    case BadExecRespEnum => BadExecResp(Uint(id, UINT64_MAX))
    case NodeExistResponseEnum => NodeExistResponse(Uint(id, UINT64_MAX))
    case NodeIsDeadResponseEnum => NodeIsDeadResponse(Uint(id, UINT64_MAX))
  }

  function MakeFromTwo(t: ResponseType, a: string, b: string): Response
    requires FieldCount(t) == 2
  {
    match t
    case BadCreateRespEnum => BadCreateResp(Uint(a, UINT64_MAX), Uint(b, UINT64_MAX))
    case GoodCreateRespEnum => GoodCreateResp(Uint(a, UINT64_MAX), Uint(b, UINT64_MAX))
    case GoodExecRespEnum => GoodExecResp(Uint(a, UINT64_MAX), Double(b))
    case HeartbeatEnum => Heartbeat(Uint(a, UINT64_MAX), FromUint64(Uint(b, UINT64_MAX)))
  }

  /** The response with the given fields; an authorization response has a type of its own instead. */
  function MakeResponse(t: ResponseType, f: seq<string>): Response
    requires t != AuthorizationResponseEnum && |f| == FieldCount(t)
  {
    if t == InvalidRequestEnum then InvalidRequest
    else if FieldCount(t) == 1 then MakeFromId(t, f[0])
    else MakeFromTwo(t, f[0], f[1])
  }

  lemma MadeFromId(t: ResponseType, id: string)
    requires FieldCount(t) == 1
    ensures TypeOf(MakeFromId(t, id)) == t
  {}

  lemma MadeFromTwo(t: ResponseType, a: string, b: string)
    requires FieldCount(t) == 2
    ensures TypeOf(MakeFromTwo(t, a, b)) == t
  {
    var (x, y) := (Uint(a, UINT64_MAX), Uint(b, UINT64_MAX));
    match t
    case BadCreateRespEnum => assert MakeFromTwo(t, a, b) == BadCreateResp(x, y);
    case GoodCreateRespEnum => assert MakeFromTwo(t, a, b) == GoodCreateResp(x, y);
    case GoodExecRespEnum => assert MakeFromTwo(t, a, b) == GoodExecResp(x, Double(b));
    case HeartbeatEnum => assert MakeFromTwo(t, a, b) == Heartbeat(x, FromUint64(y));
  }

  lemma Made(t: ResponseType, f: seq<string>)
    requires t != AuthorizationResponseEnum && |f| == FieldCount(t)
    ensures TypeOf(MakeResponse(t, f)) == t
  {
    if FieldCount(t) == 1 {
      MadeFromId(t, f[0]);
    } else if FieldCount(t) == 2 {
      MadeFromTwo(t, f[0], f[1]);
    }
  }

  function DecodeResponse(s: string): Result<Response> {
    var (name, body) := Unframe(s);
    match ResponseTypeOf(name)
    case None => Thrown
    case Some(t) =>
      if t == AuthorizationResponseEnum then DecodeAnswer(body)
      else
        match Vars(body, FieldCount(t))
        case Thrown => Thrown
        case Ok(f) => Ok(MakeResponse(t, f.texts))
  }

  datatype MessageType = RequestEnum | ResponseEnum | KillSignalEnum

  function MessageTypeOf(name: string): Option<MessageType> {
    if name == "Request" then Some(RequestEnum)
    else if name == "Response" then Some(ResponseEnum)
    else if name == "KillSignal" then Some(KillSignalEnum)
    else None
  }

  function AsResponseMsg(r: Result<Response>): Result<Message> {
    match r
    case Thrown => Thrown
    case Ok(resp) => Ok(ResponseMsg(resp))
  }

  function DecodePayload(s: string): Result<Message> {
    var (name, body) := Unframe(s);
    match MessageTypeOf(name)
    case None => Thrown
    case Some(RequestEnum) => DecodeRequest(body)
    case Some(ResponseEnum) => AsResponseMsg(DecodeResponse(body))
    case Some(KillSignalEnum) => Ok(KillSignal)
  }

  function Decode(s: string): Result<Message> {
    var (name, body) := Unframe(s);
    if name != "Message" then Thrown else DecodePayload(body)
  }
}
