/**
 * From a decoded request to the response the server sends, and from the
 * bytes of a request stream to what the server writes back
 * (jsonrpc/server.go, lines 209-313 and 336-383). The JSON layer is a set of
 * functions the engine is parameterised by.
 */
module Dispatcher {
  import opened Wrappers
  import opened Json
  import opened Envelope
  import opened Registry
  import opened Binder
  import opened Framing

  /**
   * The JSON layer: decoding one request object, decoding a batch into its
   * raw elements, converting a params value to a declared type, and whether
   * a response marshals.
   */
  datatype Codec = Codec(
    decodeRequest: seq<byte> -> Result<Request, string>,
    decodeBatch: seq<byte> -> Result<seq<seq<byte>>, string>,
    convert: Converter,
    marshals: Response -> bool)

  /**
   * What a call on the stream yields: nothing to write, one response object,
   * an array of response objects, or the marshal error of a single response.
   */
  datatype Output = NoBytes | Single(response: Response) | Many(responses: seq<Response>) | MarshalError

  /**
   * One request against the table. A request that fails the sanity check is
   * refused with the reason; otherwise a response echoing the request's id
   * is built, and left out only for a notification whose handler ran.
   */
  function HandleRequest(methods: map<string, Entry>, validator: Option<Validator>, convert: Converter, req: Request)
    : (r: Result<Option<Response>, SanityError>)
    requires RegistryValid(methods)
    ensures r.Failure? <==> IsSane(req).Some?
    ensures r.Failure? ==> IsSane(req) == Some(r.error)
    ensures r.Success? && r.value.Some? ==> r.value.value.version == Version && r.value.value.id == req.id
    ensures r.Success? && r.value.Some? && r.value.value.error.Some? ==> r.value.value.result == Null
    // An unknown method is answered before the notification check, so even a notification gets it.
    ensures IsSane(req).None? && req.methodName !in methods ==>
              r == Success(Some(ErrorResponse(Err(MethodNotFound, Null), req.id)))
    ensures IsSane(req).None? && req.methodName in methods &&
            BindArguments(validator, convert, req.params, methods[req.methodName]).Failure? ==>
              r == Success(Some(ErrorResponse(Err(InvalidParams,
                String(BindArguments(validator, convert, req.params, methods[req.methodName]).error)), req.id)))
    // The only silent outcome: a well-formed notification whose handler was called.
    ensures r == Success(None) <==>
              IsSane(req).None? && req.methodName in methods &&
              BindArguments(validator, convert, req.params, methods[req.methodName]).Success? &&
              req.id.Null?
    // Otherwise the handler's own error is passed on verbatim; without one its result is.
    ensures IsSane(req).None? && req.methodName in methods && !req.id.Null? &&
            BindArguments(validator, convert, req.params, methods[req.methodName]).Success? ==>
              var reply := methods[req.methodName].def.handler.call(
                BindArguments(validator, convert, req.params, methods[req.methodName]).value);
              && r.Success? && r.value.Some?
              && r.value.value.error == reply.error
              && (reply.error.None? ==> r.value.value.result == reply.result)
  {
    match IsSane(req)
    case Some(e) => Failure(e)
    case None =>
      if req.methodName !in methods then Success(Some(ErrorResponse(Err(MethodNotFound, Null), req.id)))
      else
        var e := methods[req.methodName];
        match BindArguments(validator, convert, req.params, e)
        case Failure(err) => Success(Some(ErrorResponse(Err(InvalidParams, String(err)), req.id)))
        case Success(args) =>
          var reply := e.def.handler.call(args);
          if req.id.Null? then Success(None)
          else if reply.error.Some? then Success(Some(ErrorResponse(reply.error.value, req.id)))
          else Success(Some(Response(Version, reply.result, None, req.id)))
  }

  /** A notification to a method the server does not know is answered all the same. */
  lemma NotificationToUnknownMethodIsAnswered(methods: map<string, Entry>, validator: Option<Validator>, convert: Converter,
                                              name: string, params: Json)
    requires RegistryValid(methods)
    requires name != "" && name !in methods && ParamsShapeOk(params)
    ensures var r := HandleRequest(methods, validator, convert, Request(Version, name, params, Null));
            r.Success? && r.value.Some? && r.value.value.error == Some(Err(MethodNotFound, Null)) && r.value.value.id == Null
  {
  }

  /**
   * One element of a batch: an element that does not decode is refused as
   * an invalid request without an id; a decoded one is answered as a single
   * request would be, a sanity failure included.
   */
  function ElementResponse(codec: Codec, methods: map<string, Entry>, validator: Option<Validator>, raw: seq<byte>)
    : (r: Option<Response>)
    requires RegistryValid(methods)
    ensures r.Some? ==> r.value.version == Version
    ensures codec.decodeRequest(raw).Failure? ==>
              r == Some(ErrorResponse(Err(InvalidRequest, String(codec.decodeRequest(raw).error)), Null))
    ensures r.None? <==>
              codec.decodeRequest(raw).Success? &&
              HandleRequest(methods, validator, codec.convert, codec.decodeRequest(raw).value) == Success(None)
    // A decoded element that fails its sanity check is refused with the reason, as a single request is.
    ensures codec.decodeRequest(raw).Success? && IsSane(codec.decodeRequest(raw).value).Some? ==>
              var req := codec.decodeRequest(raw).value;
              r == Some(SanityFailureResponse(req, IsSane(req).value))
    // A decoded, sane element gets exactly the answer the request handler gives.
    ensures codec.decodeRequest(raw).Success? && IsSane(codec.decodeRequest(raw).value).None? ==>
              Success(r) == HandleRequest(methods, validator, codec.convert, codec.decodeRequest(raw).value)
  {
    match codec.decodeRequest(raw)
    case Failure(msg) => Some(ErrorResponse(Err(InvalidRequest, String(msg)), Null))
    case Success(req) =>
      match HandleRequest(methods, validator, codec.convert, req)
      case Failure(e) => Some(SanityFailureResponse(req, e))
      case Success(resp) => resp
  }

  /** Every element's answer, in submission order: a response, or none for a handled notification. */
  function Answers(codec: Codec, methods: map<string, Entry>, validator: Option<Validator>, raws: seq<seq<byte>>)
    : (answers: seq<Option<Response>>)
    requires RegistryValid(methods)
    ensures |answers| == |raws|
    ensures forall i :: 0 <= i < |answers| && answers[i].Some? ==> answers[i].value.version == Version
  {
    seq(|raws|, i requires 0 <= i < |raws| => ElementResponse(codec, methods, validator, raws[i]))
  }

  /** Whether an answer reaches the batch: it exists and it marshals. */
  predicate Kept(marshals: Response -> bool, answer: Option<Response>) {
    answer.Some? && marshals(answer.value)
  }

  /**
   * The answers that reach the batch, in order: a notification adds nothing
   * and a response that does not marshal is dropped.
   */
  function Gather(marshals: Response -> bool, answers: seq<Option<Response>>): (rs: seq<Response>)
    ensures |rs| <= |answers|
    ensures forall i :: 0 <= i < |rs| ==> marshals(rs[i])
  {
    if answers == [] then []
    else
      var n := |answers| - 1;
      var init := Gather(marshals, answers[..n]);
      if Kept(marshals, answers[n]) then init + [answers[n].value] else init
  }

  /** A response is gathered exactly when some answer is that response and it marshals. */
  lemma {:induction false} GatherMembership(marshals: Response -> bool, answers: seq<Option<Response>>, resp: Response)
    ensures resp in Gather(marshals, answers) <==>
              marshals(resp) && exists i :: 0 <= i < |answers| && answers[i] == Some(resp)
  {
    if answers != [] {
      var n := |answers| - 1;
      GatherMembership(marshals, answers[..n], resp);
      assert forall i :: 0 <= i < n ==> answers[..n][i] == answers[i];
    }
  }

  /** Gathering two runs of answers one after the other keeps their order. */
  lemma {:induction false} GatherAppend(marshals: Response -> bool, a: seq<Option<Response>>, b: seq<Option<Response>>)
    ensures Gather(marshals, a + b) == Gather(marshals, a) + Gather(marshals, b)
    decreases |b|
  {
    if b == [] {
      assert a + b == a;
    } else {
      var n := |b| - 1;
      assert (a + b)[..|a + b| - 1] == a + b[..n];
      GatherAppend(marshals, a, b[..n]);
    }
  }

  /** Nothing is gathered exactly when no answer is kept. */
  lemma {:induction false} GatherNothing(marshals: Response -> bool, answers: seq<Option<Response>>)
    ensures Gather(marshals, answers) == [] <==> forall i :: 0 <= i < |answers| ==> !Kept(marshals, answers[i])
  {
    if answers != [] {
      var n := |answers| - 1;
      GatherNothing(marshals, answers[..n]);
      assert forall i :: 0 <= i < n ==> answers[..n][i] == answers[i];
    }
  }

  /** The responses of a batch, in submission order. */
  function BatchResponses(codec: Codec, methods: map<string, Entry>, validator: Option<Validator>, raws: seq<seq<byte>>)
    : (rs: seq<Response>)
    requires RegistryValid(methods)
    ensures |rs| <= |raws|
    ensures forall i :: 0 <= i < |rs| ==> codec.marshals(rs[i]) && rs[i].version == Version
  {
    var answers := Answers(codec, methods, validator, raws);
    var rs := Gather(codec.marshals, answers);
    assert forall i :: 0 <= i < |rs| ==> rs[i].version == Version by {
      forall i | 0 <= i < |rs|
        ensures rs[i].version == Version
      {
        GatherMembership(codec.marshals, answers, rs[i]);
      }
    }
    rs
  }

  /** A response is in the batch's answer exactly when some element yields it and it marshals. */
  lemma BatchMembership(codec: Codec, methods: map<string, Entry>, validator: Option<Validator>,
                        raws: seq<seq<byte>>, resp: Response)
    requires RegistryValid(methods)
    ensures resp in BatchResponses(codec, methods, validator, raws) <==>
              codec.marshals(resp) &&
              exists i :: 0 <= i < |raws| && ElementResponse(codec, methods, validator, raws[i]) == Some(resp)
  {
    var answers := Answers(codec, methods, validator, raws);
    assert forall i :: 0 <= i < |raws| ==> answers[i] == ElementResponse(codec, methods, validator, raws[i]);
    GatherMembership(codec.marshals, answers, resp);
  }

  /** Answering two runs of elements one after the other: the answers follow the elements' order. */
  lemma BatchResponsesAppend(codec: Codec, methods: map<string, Entry>, validator: Option<Validator>,
                             a: seq<seq<byte>>, b: seq<seq<byte>>)
    requires RegistryValid(methods)
    ensures BatchResponses(codec, methods, validator, a + b) ==
            BatchResponses(codec, methods, validator, a) + BatchResponses(codec, methods, validator, b)
  {
    var answers := Answers(codec, methods, validator, a + b);
    assert answers == Answers(codec, methods, validator, a) + Answers(codec, methods, validator, b);
    GatherAppend(codec.marshals, Answers(codec, methods, validator, a), Answers(codec, methods, validator, b));
  }

  /** A batch none of whose elements is answered yields an empty list of responses, and conversely. */
  lemma SilentBatch(codec: Codec, methods: map<string, Entry>, validator: Option<Validator>, raws: seq<seq<byte>>)
    requires RegistryValid(methods)
    ensures BatchResponses(codec, methods, validator, raws) == [] <==>
              forall i :: 0 <= i < |raws| ==> !Kept(codec.marshals, ElementResponse(codec, methods, validator, raws[i]))
  {
    var answers := Answers(codec, methods, validator, raws);
    assert forall i :: 0 <= i < |raws| ==> answers[i] == ElementResponse(codec, methods, validator, raws[i]);
    GatherNothing(codec.marshals, answers);
  }

  /** A single response object, or the marshal error when it does not marshal. */
  function Emit(codec: Codec, resp: Response): (out: Output)
    ensures out.Single? <==> codec.marshals(resp)
    ensures out.Single? ==> out.response == resp
  {
    if codec.marshals(resp) then Single(resp) else MarshalError
  }

  /** A batch's answer: nothing at all when no element was answered, never an empty array. */
  function BatchOutput(rs: seq<Response>): (out: Output)
    ensures out != Many([])
    ensures out == NoBytes <==> rs == []
    ensures out.Many? ==> out.responses == rs
  {
    if rs == [] then NoBytes else Many(rs)
  }

  /**
   * What the server writes back for a request stream: the stream is a batch
   * when its first significant byte opens an array, and the decoder reads it
   * from that byte on.
   */
  function Outcome(codec: Codec, methods: map<string, Entry>, validator: Option<Validator>, input: seq<byte>)
    : (out: Output)
    requires RegistryValid(methods)
    ensures out != Many([])
    ensures out.Single? ==> codec.marshals(out.response) && out.response.version == Version
    ensures out.Many? ==>
              StartsBatch(input) && codec.decodeBatch(Significant(input)).Success? &&
              |out.responses| <= |codec.decodeBatch(Significant(input)).value|
  {
    var body := Significant(input);
    if !StartsBatch(input) then
      match codec.decodeRequest(body)
      case Failure(msg) => Emit(codec, ErrorResponse(Err(InvalidJson, String(msg)), Null))
      case Success(req) =>
        match HandleRequest(methods, validator, codec.convert, req)
        case Failure(e) => Emit(codec, SanityFailureResponse(req, e))
        case Success(None) => NoBytes
        case Success(Some(resp)) => Emit(codec, resp)
    else
      match codec.decodeBatch(body)
      case Failure(msg) => Emit(codec, ErrorResponse(Err(InvalidJson, String(msg)), Null))
      case Success(raws) =>
        if raws == [] then Emit(codec, ErrorResponse(Err(InvalidRequest, String("empty batch")), Null))
        else BatchOutput(BatchResponses(codec, methods, validator, raws))
  }

  /** A single request that does not decode is a parse error, carrying the decoder's message and no id. */
  lemma UndecodableRequestIsAParseError(codec: Codec, methods: map<string, Entry>, validator: Option<Validator>, input: seq<byte>)
    requires RegistryValid(methods)
    requires !StartsBatch(input) && codec.decodeRequest(Significant(input)).Failure?
    ensures Outcome(codec, methods, validator, input) ==
              Emit(codec, ErrorResponse(Err(InvalidJson, String(codec.decodeRequest(Significant(input)).error)), Null))
  {
  }

  /**
   * A single request that fails its sanity check is an invalid request
   * carrying the reason; its id is echoed unless the id was the reason.
   */
  lemma InsaneRequestIsInvalid(codec: Codec, methods: map<string, Entry>, validator: Option<Validator>, input: seq<byte>)
    requires RegistryValid(methods)
    requires !StartsBatch(input) && codec.decodeRequest(Significant(input)).Success?
    requires IsSane(codec.decodeRequest(Significant(input)).value).Some?
    ensures var req := codec.decodeRequest(Significant(input)).value;
            var resp := SanityFailureResponse(req, IsSane(req).value);
            && Outcome(codec, methods, validator, input) == Emit(codec, resp)
            && resp.error == Some(Err(InvalidRequest, String(Message(IsSane(req).value))))
            && (resp.id == Null <==> IsSane(req) == Some(InvalidId) || req.id == Null)
  {
  }

  /**
   * A single request that decodes and passes the sanity check writes the
   * request handler's response, or nothing for a notification whose
   * handler ran.
   */
  lemma SaneRequestPassesThrough(codec: Codec, methods: map<string, Entry>, validator: Option<Validator>, input: seq<byte>)
    requires RegistryValid(methods)
    requires !StartsBatch(input) && codec.decodeRequest(Significant(input)).Success?
    requires IsSane(codec.decodeRequest(Significant(input)).value).None?
    ensures var r := HandleRequest(methods, validator, codec.convert, codec.decodeRequest(Significant(input)).value);
            var out := Outcome(codec, methods, validator, input);
            && r.Success?
            && (r.value.None? <==> out == NoBytes)
            && (r.value.Some? ==> out == Emit(codec, r.value.value))
  {
  }

  /** An empty batch is one invalid request, not an empty array. */
  lemma EmptyBatchIsInvalid(codec: Codec, methods: map<string, Entry>, validator: Option<Validator>, input: seq<byte>)
    requires RegistryValid(methods)
    requires StartsBatch(input) && codec.decodeBatch(Significant(input)) == Success([])
    ensures Outcome(codec, methods, validator, input) ==
              Emit(codec, ErrorResponse(Err(InvalidRequest, String("empty batch")), Null))
  {
  }

  /** A batch that does not decode is a parse error, carrying the decoder's message and no id. */
  lemma UndecodableBatchIsAParseError(codec: Codec, methods: map<string, Entry>, validator: Option<Validator>, input: seq<byte>)
    requires RegistryValid(methods)
    requires StartsBatch(input) && codec.decodeBatch(Significant(input)).Failure?
    ensures Outcome(codec, methods, validator, input) ==
              Emit(codec, ErrorResponse(Err(InvalidJson, String(codec.decodeBatch(Significant(input)).error)), Null))
  {
  }

  /**
   * A decoded, non-empty batch writes nothing exactly when none of its
   * elements is answered; otherwise it writes the answers in order.
   */
  lemma BatchOfNotificationsWritesNothing(codec: Codec, methods: map<string, Entry>, validator: Option<Validator>,
                                          input: seq<byte>)
    requires RegistryValid(methods)
    requires StartsBatch(input) && codec.decodeBatch(Significant(input)).Success?
    requires codec.decodeBatch(Significant(input)).value != []
    ensures Outcome(codec, methods, validator, input) ==
              BatchOutput(BatchResponses(codec, methods, validator, codec.decodeBatch(Significant(input)).value))
    ensures var raws := codec.decodeBatch(Significant(input)).value;
            Outcome(codec, methods, validator, input) == NoBytes <==>
              forall i :: 0 <= i < |raws| ==> !Kept(codec.marshals, ElementResponse(codec, methods, validator, raws[i]))
  {
    SilentBatch(codec, methods, validator, codec.decodeBatch(Significant(input)).value);
  }

  /** Whitespace ahead of the request changes nothing the server writes. */
  lemma LeadingWhitespaceIsIgnored(codec: Codec, methods: map<string, Entry>, validator: Option<Validator>,
                                   w: seq<byte>, input: seq<byte>)
    requires RegistryValid(methods)
    requires forall i :: 0 <= i < |w| ==> IsWhitespace(w[i])
    ensures Outcome(codec, methods, validator, w + input) == Outcome(codec, methods, validator, input)
  {
    WhitespaceIsInsignificant(w, input);
  }
}
