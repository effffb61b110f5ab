/** The wire as a whole: round trip, injectivity, rejection, and any number of hops. */
module WireTheorems {
  import opened Messages
  import opened Fields
  import opened Codec
  import opened Rounding
  import opened RoundTrip
  import opened AuthorizationText

  // ---------------------------------------------------------------- round trip

  predicate RepresentableCommand(c: Command) {
    match c
    case Create(x, p) => x <= UINT16_MAX && p <= UINT16_MAX
    case Exec(id, k) => id <= UINT16_MAX && |k| <= UINT64_MAX && AllExact(k)
    case PrintTree => true
  }

  predicate RepresentableResponse(r: Response) {
    match r
    case InvalidRequest => true
    case AuthorizationAccepted => true
    case AuthorizationDenied => true
    case BadCreateResp(x, p) => x <= UINT64_MAX && p <= UINT64_MAX
    case GoodCreateResp(id, pid) => id <= UINT64_MAX && pid <= UINT64_MAX
    case BadExecResp(id) => id <= UINT64_MAX
    case GoodExecResp(id, sum) => id <= UINT64_MAX && Exact(sum)
    case NodeExistResponse(id) => id <= UINT64_MAX
    case NodeIsDeadResponse(id) => id <= UINT64_MAX
    case Heartbeat(id, time) => id <= UINT64_MAX && 0 - TWO_63 <= time < TWO_63
  }

  /** Integers of the declared width, multiples of a millionth, texts without separators. */
  predicate Representable(m: Message) {
    match m
    case CommandMsg(c) => RepresentableCommand(c)
    case AuthorizationWithName(endpoint, name) => Clean(endpoint) && Clean(name)
    case ResponseMsg(r) => RepresentableResponse(r)
    case KillSignal => true
  }

  lemma ExactIffSnapped(k: seq<real>)
    ensures Snapped(k) == k <==> AllExact(k)
  {
    forall i | 0 <= i < |k| ensures Snapped(k)[i] == k[i] <==> Exact(k[i]) {
      SnapFixesExact(k[i]);
    }
  }

  lemma SettledCommandIff(c: Command)
    ensures SettledCommand(c) == c <==> RepresentableCommand(c)
  {
    match c
    case Create(_, _) =>
    case Exec(id, k) =>
      ExactIffSnapped(k);
      if |k| <= UINT64_MAX {
        assert k[..Min(|k|, UINT64_MAX)] == k;
      }
    case PrintTree =>
  }

  lemma SettledResponseIff(r: Response)
    ensures SettledResponse(r) == r <==> RepresentableResponse(r)
  {
    match r
    case GoodExecResp(_, sum) => SnapFixesExact(sum);
    case Heartbeat(_, time) => TimeBits(time);
    case _ =>
  }

  lemma MessageLayer(payload: string)
    ensures Decode(Frame("Message", payload)) == DecodePayload(payload)
  {
    UnframeFrame("Message", payload);
  }

  lemma RequestLayer(inner: string)
    ensures DecodePayload(Frame("Request", inner)) == DecodeRequest(inner)
  {
    UnframeFrame("Request", inner);
  }

  lemma CommandLayer(inner: string)
    ensures DecodeRequest(Frame("Command", inner)) == AsCommandMsg(DecodeCommand(inner))
  {
    UnframeFrame("Command", inner);
  }

  lemma AuthorizationLayer(inner: string)
    ensures DecodeRequest(Frame("Authorization", inner)) == DecodeAuthorization(inner)
  {
    UnframeFrame("Authorization", inner);
  }

  lemma ResponseLayer(inner: string)
    ensures DecodePayload(Frame("Response", inner)) == AsResponseMsg(DecodeResponse(inner))
  {
    UnframeFrame("Response", inner);
  }

  lemma CommandRoundTrip(c: Command)
    ensures Decode(Encode(CommandMsg(c))) == Ok(CommandMsg(SettledCommand(c)))
  {
    var inner := Frame(CommandName(c), Join(CommandFields(c)));
    CommandBack(c);
    CommandLayer(inner);
    RequestLayer(Frame("Command", inner));
    MessageLayer(Payload(CommandMsg(c)));
  }

  lemma ResponseRoundTrip(r: Response)
    ensures Decode(Encode(ResponseMsg(r))) == Ok(ResponseMsg(SettledResponse(r)))
  {
    var inner := Frame(ResponseName(r), Join(ResponseFields(r)));
    ResponseBack(r);
    ResponseLayer(inner);
    MessageLayer(Payload(ResponseMsg(r)));
  }

  lemma AuthorizationRoundTrip(endpoint: string, name: string)
    ensures Decode(Encode(AuthorizationWithName(endpoint, name))) == Ok(AuthorizationWithName(endpoint, name))
      <==> Clean(endpoint) && Clean(name)
  {
    var inner := Frame("AuthorizationWithName", Body(endpoint, name));
    AuthorizationBackIff(endpoint, name);
    AuthorizationLayer(inner);
    RequestLayer(Frame("Authorization", inner));
    MessageLayer(Payload(AuthorizationWithName(endpoint, name)));
  }

  lemma CommandIff(c: Command)
    ensures Decode(Encode(CommandMsg(c))) == Ok(CommandMsg(c)) <==> RepresentableCommand(c)
  {
    CommandRoundTrip(c);
    SettledCommandIff(c);
  }

  lemma ResponseIff(r: Response)
    ensures Decode(Encode(ResponseMsg(r))) == Ok(ResponseMsg(r)) <==> RepresentableResponse(r)
  {
    ResponseRoundTrip(r);
    SettledResponseIff(r);
  }

  lemma KillLayer(inner: string)
    ensures DecodePayload(Frame("KillSignal", inner)) == Ok(KillSignal)
  {
    UnframeFrame("KillSignal", inner);
  }

  lemma KillRoundTrip()
    ensures Decode(Encode(KillSignal)) == Ok(KillSignal)
  {
    KillLayer("");
    MessageLayer(Payload(KillSignal));
  }

  /** A message survives the wire exactly when it is representable. */
  lemma RoundTripIff(m: Message)
    ensures Decode(Encode(m)) == Ok(m) <==> Representable(m)
  {
    match m
    case CommandMsg(c) => CommandIff(c);
    case AuthorizationWithName(endpoint, name) => AuthorizationRoundTrip(endpoint, name);
    case ResponseMsg(r) => ResponseIff(r);
    case KillSignal => KillRoundTrip();
  }

  /** No two representable messages have the same text. */
  lemma EncodeInjective(m: Message, n: Message)
    requires Representable(m) && Representable(n) && Encode(m) == Encode(n)
    ensures m == n
  {
    RoundTripIff(m);
    RoundTripIff(n);
  }

  // ---------------------------------------------------------------- any number of hops

  function Repeat(f: Message -> Result<Message>, m: Message, times: nat): Result<Message> {
    if times == 0 then Ok(m)
    else
      match Repeat(f, m, times - 1)
      case Thrown => Thrown
      case Ok(n) => f(n)
  }

  /** After the first step nothing changes any more. */
  lemma {:induction false} RepeatSettles(f: Message -> Result<Message>, m: Message, n: Message, times: nat)
    requires f(m) == Ok(n) && f(n) == Ok(n)
    ensures Repeat(f, m, times) == Ok(if times == 0 then m else n)
  {
    if times > 0 {
      RepeatSettles(f, m, n, times - 1);
    }
  }

  /** What arrives when a message is written once and read. */
  function Hop(m: Message): Result<Message> { Decode(Encode(m)) }

  /** What arrives after so many processes have read the message and written it again. */
  function Travel(m: Message, hops: nat): Result<Message> { Repeat(Hop, m, hops) }

  lemma OneHopExec(id: nat, k: seq<real>)
    requires id <= UINT16_MAX && |k| <= UINT64_MAX
    ensures Hop(CommandMsg(Exec(id, k))) == Ok(CommandMsg(Exec(id, Snapped(k))))
  {
    CommandRoundTrip(Exec(id, k));
    assert k[..Min(|k|, UINT64_MAX)] == k;
  }

  lemma TravelExec(id: nat, k: seq<real>, hops: nat)
    requires id <= UINT16_MAX && |k| <= UINT64_MAX && hops >= 1
    ensures Travel(CommandMsg(Exec(id, k)), hops) == Ok(CommandMsg(Exec(id, Snapped(k))))
  {
    OneHopExec(id, k);
    OneHopExec(id, Snapped(k));
    SnappedTwice(k);
    RepeatSettles(Hop, CommandMsg(Exec(id, k)), CommandMsg(Exec(id, Snapped(k))), hops);
  }

  lemma TravelRepresentable(m: Message, hops: nat)
    requires Representable(m)
    ensures Travel(m, hops) == Ok(m)
  {
    RoundTripIff(m);
    RepeatSettles(Hop, m, m, hops);
  }

  /** An exec command goes down any number of links, is added up there, and its answer comes back
      over any number of links: the numbers are rounded once, the sum not at all, so that the
      answer is off by at most half a millionth for each number. */
  lemma AnswerIsNear(id: nat, k: seq<real>, down: nat, up: nat)
    requires id <= UINT16_MAX && |k| <= UINT64_MAX && down >= 1
    ensures Travel(CommandMsg(Exec(id, k)), down) == Ok(CommandMsg(Exec(id, Snapped(k))))
    ensures Travel(ResponseMsg(GoodExecResp(id, Sum(Snapped(k)))), up)
      == Ok(ResponseMsg(GoodExecResp(id, Sum(Snapped(k)))))
    ensures Abs(Sum(Snapped(k)) - Sum(k)) <= |k| as real * 0.0000005
  {
    TravelExec(id, k, down);
    SnappedExact(k);
    SumExact(Snapped(k));
    TravelRepresentable(ResponseMsg(GoodExecResp(id, Sum(Snapped(k)))), up);
    SumNear(k);
  }

  // ---------------------------------------------------------------- rejection

  lemma AcceptedCommand(s: string)
    requires DecodeCommand(s).Ok?
    ensures Unframe(s).0 == CommandName(DecodeCommand(s).value)
  {}

  lemma TypeHasOneName(name: string, r: Response)
    requires ResponseTypeOf(name) == Some(TypeOf(r))
    ensures name == ResponseName(r)
  {}

  lemma AcceptedResponse(s: string)
    requires DecodeResponse(s).Ok?
    ensures Unframe(s).0 == ResponseName(DecodeResponse(s).value)
  {
    var (name, body) := Unframe(s);
    var t := ResponseTypeOf(name).value;
    if t != AuthorizationResponseEnum {
      Made(t, Vars(body, FieldCount(t)).value.texts);
    }
    TypeHasOneName(name, DecodeResponse(s).value);
  }

  /** What a request text must look like to be accepted. */
  lemma AcceptedRequest(s: string)
    requires DecodeRequest(s).Ok?
    ensures match DecodeRequest(s).value
      case CommandMsg(c) => Unframe(s).0 == "Command" && Unframe(Unframe(s).1).0 == CommandName(c)
      case AuthorizationWithName(_, _) =>
        Unframe(s).0 == "Authorization" && Unframe(Unframe(s).1).0 == "AuthorizationWithName"
      case _ => false
  {
    var (name, body) := Unframe(s);
    if name == "Command" {
      AcceptedCommand(body);
    }
  }

  /** A text is only accepted with the type names of its message in all its layers. */
  lemma AcceptedNames(s: string)
    requires Decode(s).Ok?
    ensures Unframe(s).0 == "Message"
    ensures var (kind, body) := Unframe(Unframe(s).1);
      match Decode(s).value
      case KillSignal => kind == "KillSignal"
      case ResponseMsg(r) => kind == "Response" && Unframe(body).0 == ResponseName(r)
      case CommandMsg(c) =>
        kind == "Request" && Unframe(body).0 == "Command" && Unframe(Unframe(body).1).0 == CommandName(c)
      case AuthorizationWithName(_, _) =>
        kind == "Request" && Unframe(body).0 == "Authorization"
        && Unframe(Unframe(body).1).0 == "AuthorizationWithName"
  {
    var (kind, body) := Unframe(Unframe(s).1);
    if kind == "Request" {
      AcceptedRequest(body);
    } else if kind == "Response" {
      AcceptedResponse(body);
    }
  }
}
