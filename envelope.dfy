/**
 * The JSON-RPC 2.0 envelopes: error codes and the error table, the request
 * and response objects, and the sanity check every request passes before it
 * reaches the registry (jsonrpc/server.go, lines 20-94).
 */
module Envelope {
  import opened Wrappers
  import opened Json

  /** The only protocol version the server accepts and the one it answers with. */
  const Version: string := "2.0"

  // The fixed codes of section 5.1 of the JSON-RPC 2.0 specification.
  const InvalidJson: int := -32700
  const InvalidRequest: int := -32600
  const MethodNotFound: int := -32601
  const InvalidParams: int := -32602
  const InternalError: int := -32603

  datatype RpcError = RpcError(code: int, message: string, data: Json)

  /**
   * The error table: each of the four specific codes is kept with its fixed
   * message; every other code, InternalError included, becomes InternalError.
   * The data travels unchanged.
   */
  function Err(code: int, data: Json): (e: RpcError)
    ensures e.data == data
    ensures code == InvalidJson ==> e.code == code && e.message == "Parse error"
    ensures code == InvalidRequest ==> e.code == code && e.message == "Invalid Request"
    ensures code == MethodNotFound ==> e.code == code && e.message == "Method Not Found"
    ensures code == InvalidParams ==> e.code == code && e.message == "Invalid Params"
    ensures code !in {InvalidJson, InvalidRequest, MethodNotFound, InvalidParams} ==>
              e.code == InternalError && e.message == "Internal Error"
  {
    match code
    case -32700 => RpcError(InvalidJson, "Parse error", data)
    case -32600 => RpcError(InvalidRequest, "Invalid Request", data)
    case -32601 => RpcError(MethodNotFound, "Method Not Found", data)
    case -32602 => RpcError(InvalidParams, "Invalid Params", data)
    case _ => RpcError(InternalError, "Internal Error", data)
  }

  /** The codes the table keeps; the table is the identity on them and nowhere else. */
  lemma ErrKeepsExactlyTheProtocolCodes(code: int, data: Json)
    ensures Err(code, data).code == code <==>
              code in {InvalidJson, InvalidRequest, MethodNotFound, InvalidParams, InternalError}
    ensures Err(Err(code, data).code, data) == Err(code, data)
  {
  }

  /**
   * A decoded request. `params` and `id` are Go `any` fields: `Null` when the
   * member is absent or null.
   */
  datatype Request = Request(version: string, methodName: string, params: Json, id: Json)

  /**
   * A response. At most one of `result` and `error` is meaningful; a Null
   * result is what the engine leaves when it places an error.
   */
  datatype Response = Response(version: string, result: Json, error: Option<RpcError>, id: Json)

  function ErrorResponse(e: RpcError, id: Json): Response {
    Response(Version, Null, Some(e), id)
  }

  /** The reasons isSane gives, in the order it checks them. */
  datatype SanityError = UnsupportedVersion | NoMethod | ParamsNotStructured | InvalidId

  function Message(e: SanityError): string {
    match e
    case UnsupportedVersion => "unsupported RPC request version"
    case NoMethod => "no method specified"
    case ParamsNotStructured => "params should be an array or an object"
    case InvalidId => "id should be a string or an integer"
  }

  /** Params, when present, must be by-position (an array) or by-name (an object). */
  predicate ParamsShapeOk(params: Json) {
    params.Null? || params.Array? || params.Object?
  }

  /**
   * An id, when present, must be a string or a number whose text has no
   * decimal point. Only the point is looked for: an exponent form such as
   * `1e-3` passes.
   */
  predicate IdShapeOk(id: Json) {
    id.Null? || id.String? || (id.Number? && '.' !in id.text)
  }

  /** The envelope checks of sections 4 and 4.2 of the JSON-RPC 2.0 specification, first failure first. */
  function IsSane(req: Request): (r: Option<SanityError>)
    ensures r.None? <==>
              req.version == Version && req.methodName != "" && ParamsShapeOk(req.params) && IdShapeOk(req.id)
    ensures r == Some(UnsupportedVersion) <==> req.version != Version
    ensures r == Some(NoMethod) <==> req.version == Version && req.methodName == ""
    ensures r == Some(ParamsNotStructured) <==>
              req.version == Version && req.methodName != "" && !ParamsShapeOk(req.params)
    ensures r == Some(InvalidId) <==>
              req.version == Version && req.methodName != "" && ParamsShapeOk(req.params) && !IdShapeOk(req.id)
  {
    if req.version != Version then Some(UnsupportedVersion)
    else if req.methodName == "" then Some(NoMethod)
    else if !(req.params.Null? || req.params.Array? || req.params.Object?) then Some(ParamsNotStructured)
    else if req.id.Null? then None
    else if !(req.id.String? || req.id.Number?) then Some(InvalidId)
    else if req.id.Number? && '.' in req.id.text then Some(InvalidId)
    else None
  }

  /**
   * The answer to a request that failed its sanity check: Invalid Request
   * carrying the reason, with the request's id echoed unless the id itself
   * was the problem.
   */
  function SanityFailureResponse(req: Request, e: SanityError): (resp: Response)
    ensures resp.error.Some? && resp.error.value.code == InvalidRequest
    ensures resp.error.value.data == String(Message(e))
    ensures resp.id == (if e == InvalidId then Null else req.id)
  {
    var id := if e == InvalidId then Null else req.id;
    ErrorResponse(Err(InvalidRequest, String(Message(e))), id)
  }

  /** A fractional id is refused, and it is the one refusal that drops the id. */
  lemma FractionalIdIsRefused(name: string, params: Json)
    requires name != "" && ParamsShapeOk(params)
    ensures IsSane(Request(Version, name, params, Number("1.5"))) == Some(InvalidId)
    ensures SanityFailureResponse(Request(Version, name, params, Number("1.5")), InvalidId).id == Null
  {
    assert '.' in "1.5";
  }

  /** An exponent-form number passes as an id: only a decimal point is refused. */
  lemma ExponentIdIsAccepted(name: string)
    requires name != ""
    ensures IsSane(Request(Version, name, Null, Number("1e-3"))).None?
  {
  }
}
