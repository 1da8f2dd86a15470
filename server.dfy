/**
 * The server object: its method table, its optional validator, and the
 * operations that change the table or answer requests
 * (jsonrpc/server.go, lines 111-313 and 336-383).
 */
module Jsonrpc {
  import opened Wrappers
  import opened Json
  import opened Envelope
  import opened Reflection
  import opened Registry
  import opened Binder
  import opened Framing
  import opened Dispatcher

  class Server {
    /** The registered methods, by name. */
    var methods: map<string, Entry>
    /** The struct validator, when one is configured. */
    var validator: Option<Validator>

    ghost predicate Valid()
      reads this
    {
      RegistryValid(methods)
    }

    /** A server with no methods and no validator. */
    constructor ()
      ensures Valid() && methods == map[] && validator == None
    {
      methods := map[];
      validator := None;
    }

    /**
     * Configure the validator that argument structs are checked with; a nil
     * validator (`None`) turns validation off.
     */
    method WithValidator(v: Option<Validator>)
      modifies this`validator
      ensures validator == v
    {
      validator := v;
    }

    /**
     * Check a method's handler and file it under its name. A leading
     * context input is not counted against the parameter names and marks
     * the entry as needing the context. On failure the table is untouched.
     */
    method RegisterMethod(m: Method) returns (err: Option<string>)
      requires Valid()
      modifies this`methods
      ensures Valid()
      ensures err == RegistrationError(m)
      ensures err.Some? ==> methods == old(methods)
      ensures err.None? ==> methods == Install(old(methods), m)
    {
      var t := m.handler.typ;
      if !t.Func? {
        return Some("handler must be a function");
      }
      var numArgs := |t.ins|;
      var needsContext := false;
      if numArgs > 0 {
        if t.ins[0] == ContextType {
          numArgs := numArgs - 1;
          needsContext := true;
        }
      }
      assert needsContext == TakesContext(t) && numArgs == Arity(t);
      if numArgs != |m.params| {
        return Some("number of non-context function params and param names must match");
      }
      if |t.outs| != 2 {
        return Some("handler must return 2 values");
      }
      if t.outs[1] != ErrorPointerType {
        return Some("second return value must be a *jsonrpc.Error");
      }
      assert Registrable(m) && Entry(m, needsContext) == EntryFor(m);
      InstallKeepsValid(methods, m);
      methods := methods[m.name := Entry(m, needsContext)];
      return None;
    }

    /**
     * Register methods in order, stopping at the first that fails; those
     * registered before it stay registered.
     */
    method RegisterMethods(ms: seq<Method>) returns (err: Option<string>)
      requires Valid()
      modifies this`methods
      ensures Valid()
      ensures (methods, err) == RegisterAll(old(methods), ms)
    {
      for i := 0 to |ms|
        invariant Valid()
        invariant RegisterAll(old(methods), ms) == RegisterAll(methods, ms[i..])
      {
        assert ms[i..][1..] == ms[i + 1..];
        err := RegisterMethod(ms[i]);
        if err.Some? {
          return;
        }
      }
      return None;
    }

    /**
     * Run one request: the sanity check, the lookup, the binder, then the
     * handler, as the pure description of request handling says.
     */
    method HandleRequest(codec: Codec, req: Request) returns (r: Result<Option<Response>, SanityError>)
      requires Valid()
      ensures r == Dispatcher.HandleRequest(methods, validator, codec.convert, req)
    {
      var sanity := IsSane(req);
      if sanity.Some? {
        return Failure(sanity.value);
      }
      var res := Response(Version, Null, None, req.id);
      if req.methodName !in methods {
        res := res.(error := Some(Err(MethodNotFound, Null)));
        return Success(Some(res));
      }
      var called := methods[req.methodName];
      var args := BuildArguments(validator, codec.convert, req.params, called);
      if args.Failure? {
        res := res.(error := Some(Err(InvalidParams, String(args.error))));
        return Success(Some(res));
      }
      var reply := called.def.handler.call(args.value);
      if res.id.Null? {
        return Success(None);
      }
      if reply.error.Some? {
        res := res.(error := reply.error);
        return Success(Some(res));
      }
      res := res.(result := reply.result);
      return Success(Some(res));
    }

    /**
     * One element of a batch, as the task submitted to the pool runs it: an
     * element that does not decode is an invalid request without an id.
     */
    method HandleElement(codec: Codec, raw: seq<byte>) returns (resp: Option<Response>)
      requires Valid()
      ensures resp == ElementResponse(codec, methods, validator, raw)
    {
      var decoded := codec.decodeRequest(raw);
      if decoded.Failure? {
        return Some(ErrorResponse(Err(InvalidRequest, String(decoded.error)), Null));
      }
      var req := decoded.value;
      var handled := HandleRequest(codec, req);
      if handled.Failure? {
        return Some(SanityFailureResponse(req, handled.error));
      }
      return handled.value;
    }

    /**
     * Answer the elements of a batch one after the other, collecting every
     * response that exists and marshals; no bytes at all when none does.
     */
    method HandleBatchRequest(codec: Codec, raws: seq<seq<byte>>) returns (out: Output)
      requires Valid()
      ensures out == BatchOutput(BatchResponses(codec, methods, validator, raws))
    {
      ghost var answers := Answers(codec, methods, validator, raws);
      var responses: seq<Response> := [];
      for i := 0 to |raws|
        invariant responses == Gather(codec.marshals, answers[..i])
      {
        assert answers[..i + 1][..i] == answers[..i];
        var resp := HandleElement(codec, raws[i]);
        assert resp == answers[i];
        if resp.Some? && codec.marshals(resp.value) {
          responses := responses + [resp.value];
        }
      }
      assert answers[..|raws|] == answers;
      if |responses| == 0 {
        return NoBytes;
      }
      return Many(responses);
    }

    /**
     * Answer a request stream: peek past the whitespace to tell a batch from
     * a single request, decode from the first significant byte, and shape
     * the answer.
     */
    method HandleReader(codec: Codec, input: seq<byte>) returns (out: Output)
      requires Valid()
      ensures out == Outcome(codec, methods, validator, input)
    {
      var reader := new ByteReader(input);
      var requestIsBatch := IsBatch(reader);
      var body := reader.Unread();
      if !requestIsBatch {
        var decoded := codec.decodeRequest(body);
        var res: Response;
        if decoded.Failure? {
          res := ErrorResponse(Err(InvalidJson, String(decoded.error)), Null);
        } else {
          var req := decoded.value;
          var handled := HandleRequest(codec, req);
          if handled.Failure? {
            res := SanityFailureResponse(req, handled.error);
          } else if handled.value.None? {
            return NoBytes;
          } else {
            res := handled.value.value;
          }
        }
        return Emit(codec, res);
      }
      var batch := codec.decodeBatch(body);
      if batch.Failure? {
        var res := ErrorResponse(Err(InvalidJson, String(batch.error)), Null);
        return Emit(codec, res);
      }
      if |batch.value| == 0 {
        var res := ErrorResponse(Err(InvalidRequest, String("empty batch")), Null);
        return Emit(codec, res);
      }
      out := HandleBatchRequest(codec, batch.value);
    }
  }
}
