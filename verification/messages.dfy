/**
  The JSON-RPC message envelope. Only the header of the message class is
  modelled: its six kinds, the validity test, the factory constructors with
  their default arguments, and the derivation of replies from a request.
*/
module Messages {
  import opened Wrappers
  import opened Json

  /** The six message kinds (the header spells the last one `Discrovery`). */
  datatype MessageType = Invalid | Request | Response | Notification | Error | Discovery

  /** The error codes the router raises. */
  datatype ErrorCode = InvalidRequest | MethodNotFound | InvalidParams

  /**
    A message. A request carries its correlation id; a notification has none;
    a reply carries the id of the message it answers, if that message had one.
  */
  datatype Message =
    | InvalidMessage
    | RequestMessage(id: int, methodPath: string, params: Json)
    | NotificationMessage(methodPath: string, params: Json)
    | ResponseMessage(inReplyTo: Option<int>, result: Json)
    | ErrorMessage(inReplyTo: Option<int>, code: ErrorCode, text: string, data: Json)
    | DiscoveryMessage(discoveryId: Option<int>)

  function TypeOf(m: Message): MessageType {
    match m
    case InvalidMessage => Invalid
    case RequestMessage(_, _, _) => Request
    case NotificationMessage(_, _) => Notification
    case ResponseMessage(_, _) => Response
    case ErrorMessage(_, _, _, _) => Error
    case DiscoveryMessage(_) => Discovery
  }

  /** isValid: a message is valid exactly when its kind is not Invalid. */
  function IsValid(m: Message): (valid: bool)
    ensures valid <==> TypeOf(m) != Invalid
    ensures valid <==> m != InvalidMessage
  {
    !m.InvalidMessage?
  }

  /** The correlation id a reply to `m` must carry. */
  function CorrelationId(m: Message): Option<int> {
    match m
    case RequestMessage(id, _, _) => Some(id)
    case ResponseMessage(r, _) => r
    case ErrorMessage(r, _, _, _) => r
    case DiscoveryMessage(d) => d
    case _ => None
  }

  /** method(): the dotted `<service>.<method>` path of a request or notification. */
  function MethodPath(m: Message): string {
    if m.RequestMessage? || m.NotificationMessage? then m.methodPath else ""
  }

  /** params(): the parameters of a request or notification; Undefined for other kinds. */
  function Params(m: Message): Json {
    if m.RequestMessage? || m.NotificationMessage? then m.params else JUndefined
  }

  /** True when `reply` is a Response or Error answering `request`. */
  predicate IsReplyTo(reply: Message, request: Message) {
    (reply.ResponseMessage? || reply.ErrorMessage?) && CorrelationId(reply) == CorrelationId(request)
  }

  /** createRequest, positional form; the parameter array defaults to empty. */
  function CreateRequest(id: int, methodPath: string, params: seq<Json> := []): (m: Message)
    ensures TypeOf(m) == Request && IsValid(m)
    ensures MethodPath(m) == methodPath && Params(m) == JArray(params)
  {
    RequestMessage(id, methodPath, JArray(params))
  }

  /** createRequest, named form. */
  function CreateNamedRequest(id: int, methodPath: string, namedParameters: map<string, Json>): (m: Message)
    ensures TypeOf(m) == Request && IsValid(m)
    ensures MethodPath(m) == methodPath && Params(m) == JObject(namedParameters)
  {
    RequestMessage(id, methodPath, JObject(namedParameters))
  }

  /** createNotification, positional form; the parameter array defaults to empty. */
  function CreateNotification(methodPath: string, params: seq<Json> := []): (m: Message)
    ensures TypeOf(m) == Notification && IsValid(m) && CorrelationId(m) == None
    ensures MethodPath(m) == methodPath && Params(m) == JArray(params)
  {
    NotificationMessage(methodPath, JArray(params))
  }

  /** createNotification, named form. */
  function CreateNamedNotification(methodPath: string, namedParameters: map<string, Json>): (m: Message)
    ensures TypeOf(m) == Notification && IsValid(m) && CorrelationId(m) == None
    ensures MethodPath(m) == methodPath && Params(m) == JObject(namedParameters)
  {
    NotificationMessage(methodPath, JObject(namedParameters))
  }

  /** createResponse: a Response answering `request` and carrying `result`. */
  function CreateResponse(request: Message, result: Json): (reply: Message)
    ensures IsReplyTo(reply, request) && TypeOf(reply) == Response && IsValid(reply)
    ensures reply.result == result
  {
    ResponseMessage(CorrelationId(request), result)
  }

  /** createErrorResponse; the message text defaults to empty and the data to null. */
  function CreateErrorResponse(request: Message, code: ErrorCode, text: string := "", data: Json := JNull): (reply: Message)
    ensures IsReplyTo(reply, request) && TypeOf(reply) == Error && IsValid(reply)
    ensures reply.code == code && reply.text == text && reply.data == data
  {
    ErrorMessage(CorrelationId(request), code, text, data)
  }

  /** The factory defaults: no parameters means an empty positional array, no text means "" and null data. */
  lemma FactoryDefaults(id: int, path: string, request: Message, code: ErrorCode)
    ensures Params(CreateRequest(id, path)) == JArray([])
    ensures Params(CreateNotification(path)) == JArray([])
    ensures CreateErrorResponse(request, code) == ErrorMessage(CorrelationId(request), code, "", JNull)
  {
  }
}
