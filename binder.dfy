/**
 * Binding a request's params onto a handler's declared inputs
 * (jsonrpc/server.go, lines 385-501): absent params, params by position and
 * params by name; each bound value converted to its declared type and, when
 * a validator is configured, validated recursively.
 */
module Binder {
  import opened Wrappers
  import opened Json
  import opened Envelope
  import opened Reflection
  import opened Registry

  /** The injected struct validator: an error message, or None when the value passes. */
  type Validator = Value -> Option<string>

  /**
   * The re-marshal and unmarshal round trip that turns a decoded JSON value
   * into a Go value of a declared type, or the decoder's error.
   */
  type Converter = (Json, GoType) -> Result<Value, string>

  const MissingParamField: string := "missing non-optional param field"
  const ListArityMismatch: string := "missing/unexpected params in list"
  const MissingParam: string := "missing non-optional param"

  /** A struct, or a non-nil pointer to one: the only values the validator is shown. */
  predicate StructLike(v: Value) {
    v.Struct? || (v.Pointer? && v.target.Some? && v.target.value.Struct?)
  }

  /**
   * Validate a converted value: a struct or a pointer to one goes to the
   * validator; slices, arrays and maps are walked element by element;
   * everything else, an interface or a nil pointer included, passes.
   */
  function ValidateParam(validate: Validator, v: Value): (r: Option<string>)
    ensures StructLike(v) ==> r == validate(v)
    ensures !StructLike(v) && !v.List? && !v.Dict? ==> r.None?
    // Slices, arrays and maps are walked: the first failing element's error, or none.
    ensures v.List? ==> r == ValidateEach(validate, v.elems)
    ensures v.Dict? ==> r == ValidateEach(validate, v.values)
    decreases v
  {
    if StructLike(v) then validate(v)
    else match v
      case List(elems) => ValidateEach(validate, elems)
      case Dict(values) => ValidateEach(validate, values)
      case _ => None
  }

  /** Validate the elements in order; the first error stops the walk. */
  function ValidateEach(validate: Validator, vs: seq<Value>): (r: Option<string>)
    ensures r.None? <==> forall i :: 0 <= i < |vs| ==> ValidateParam(validate, vs[i]).None?
    ensures r.Some? ==>
              exists i :: 0 <= i < |vs| && ValidateParam(validate, vs[i]) == r &&
                          forall j :: 0 <= j < i ==> ValidateParam(validate, vs[j]).None?
    decreases vs
  {
    if vs == [] then None
    else match ValidateParam(validate, vs[0])
      case Some(e) => Some(e)
      case None =>
        var rest := ValidateEach(validate, vs[1..]);
        assert forall i :: 1 <= i < |vs| ==> vs[i] == vs[1..][i - 1];
        rest
  }

  /**
   * The validator is consulted on struct-like values only: two validators
   * that agree on those give the same verdict on every value.
   */
  lemma {:induction false} ValidatorSeesOnlyStructs(a: Validator, b: Validator, v: Value)
    requires forall x :: StructLike(x) ==> a(x) == b(x)
    ensures ValidateParam(a, v) == ValidateParam(b, v)
    decreases v
  {
    if !StructLike(v) {
      match v
      case List(elems) => ValidatorSeesOnlyStructsEach(a, b, elems);
      case Dict(values) => ValidatorSeesOnlyStructsEach(a, b, values);
      case _ =>
    }
  }

  lemma {:induction false} ValidatorSeesOnlyStructsEach(a: Validator, b: Validator, vs: seq<Value>)
    requires forall x :: StructLike(x) ==> a(x) == b(x)
    ensures ValidateEach(a, vs) == ValidateEach(b, vs)
    decreases vs
  {
    if vs != [] {
      ValidatorSeesOnlyStructs(a, b, vs[0]);
      ValidatorSeesOnlyStructsEach(a, b, vs[1..]);
    }
  }

  /**
   * Convert one JSON value to a declared type, then validate it when a
   * validator is configured.
   */
  function ParseParam(validator: Option<Validator>, convert: Converter, param: Json, t: GoType): (r: Result<Arg, string>)
    ensures r.Success? <==>
              convert(param, t).Success? &&
              (validator.Some? ==> ValidateParam(validator.value, convert(param, t).value).None?)
    ensures r.Success? ==> r.value == Bound(convert(param, t).value)
    ensures convert(param, t).Failure? ==> r.error == convert(param, t).error
    ensures r.Failure? && convert(param, t).Success? ==>
              validator.Some? && ValidateParam(validator.value, convert(param, t).value) == Some(r.error)
  {
    var v :- convert(param, t);
    if validator.Some? then
      match ValidateParam(validator.value, v)
      case Some(e) => Failure(e)
      case None => Success(Bound(v))
    else
      Success(Bound(v))
  }

  /** All the values, or the first error among them. */
  function Collect(rs: seq<Result<Arg, string>>): (r: Result<seq<Arg>, string>)
    ensures r.Success? <==> forall i :: 0 <= i < |rs| ==> rs[i].Success?
    ensures r.Success? ==> |r.value| == |rs| && forall i :: 0 <= i < |rs| ==> rs[i] == Success(r.value[i])
    ensures r.Failure? ==>
              exists i :: 0 <= i < |rs| && rs[i] == Failure(r.error) && forall j :: 0 <= j < i ==> rs[j].Success?
  {
    if rs == [] then Success([])
    else
      var n := |rs| - 1;
      var init := Collect(rs[..n]);
      assert forall i :: 0 <= i < n ==> rs[..n][i] == rs[i];
      if init.Failure? then Failure(init.error)
      else if rs[n].Failure? then Failure(rs[n].error)
      else Success(init.value + [rs[n].value])
  }

  /** When every result is a value, those values are collected. */
  lemma CollectAll(rs: seq<Result<Arg, string>>, vals: seq<Arg>)
    requires |rs| == |vals| && forall j :: 0 <= j < |rs| ==> rs[j] == Success(vals[j])
    ensures Collect(rs) == Success(vals)
  {
    assert Collect(rs).value == vals;
  }

  /** The first error is the one collected. */
  lemma CollectStopsAt(rs: seq<Result<Arg, string>>, i: nat)
    requires i < |rs| && rs[i].Failure? && forall j :: 0 <= j < i ==> rs[j].Success?
    ensures Collect(rs) == Failure(rs[i].error)
  {
  }

  /** No bound argument is the context: conversion yields values, lookup yields values or zero values. */
  predicate NoContext(rs: seq<Result<Arg, string>>) {
    forall i :: 0 <= i < |rs| && rs[i].Success? ==> rs[i].value != Context
  }

  /** The zero value of each declared type. */
  function Zeros(ts: seq<GoType>): (rs: seq<Result<Arg, string>>)
    ensures NoContext(rs)
  {
    seq(|ts|, i requires 0 <= i < |ts| => Success(Zero(ts[i])))
  }

  /** Each list element converted to the declared type at its position. */
  function Positional(validator: Option<Validator>, convert: Converter, elems: seq<Json>, ts: seq<GoType>): (rs: seq<Result<Arg, string>>)
    requires |elems| == |ts|
    ensures NoContext(rs)
  {
    seq(|elems|, i requires 0 <= i < |elems| => ParseParam(validator, convert, elems[i], ts[i]))
  }

  /** One declared parameter bound by name: its member, else its zero value if optional, else an error. */
  function BindOne(validator: Option<Validator>, convert: Converter, fields: map<string, Json>, p: Parameter, t: GoType): Result<Arg, string> {
    if p.name in fields then ParseParam(validator, convert, fields[p.name], t)
    else if p.optional then Success(Zero(t))
    else Failure(MissingParam)
  }

  /** Each declared parameter looked up by name. */
  function Named(validator: Option<Validator>, convert: Converter, fields: map<string, Json>, ps: seq<Parameter>, ts: seq<GoType>): (rs: seq<Result<Arg, string>>)
    requires |ps| == |ts|
    ensures NoContext(rs)
  {
    seq(|ps|, i requires 0 <= i < |ps| => BindOne(validator, convert, fields, ps[i], ts[i]))
  }

  /** The context argument, when the handler takes one. */
  function ContextPrefix(e: Entry): seq<Arg> {
    if e.needsContext then [Context] else []
  }

  /** The declared types the params bind to: the inputs after the context. */
  function Declared(e: Entry): (ts: seq<GoType>)
    requires WellFormed(e)
    ensures |ts| == |e.def.params|
  {
    Inputs(e)[Offset(e)..]
  }

  /**
   * The context, if the handler takes one, followed by the bound arguments;
   * or the first binding error.
   */
  function Finish(e: Entry, rs: seq<Result<Arg, string>>): Result<seq<Arg>, string> {
    match Collect(rs)
    case Failure(err) => Failure(err)
    case Success(bound) => Success(ContextPrefix(e) + bound)
  }

  /** With the context, the bound arguments number exactly the handler's inputs. */
  lemma FinishMatchesTheArity(e: Entry, rs: seq<Result<Arg, string>>)
    requires WellFormed(e) && |rs| == |e.def.params|
    ensures Finish(e, rs).Success? ==> |Finish(e, rs).value| == |Inputs(e)|
  {
  }

  /** The first argument is the context exactly when the handler needs one. */
  lemma FinishPutsTheContextFirst(e: Entry, rs: seq<Result<Arg, string>>)
    requires NoContext(rs)
    ensures var r := Finish(e, rs);
            r.Success? ==> (e.needsContext <==> |r.value| > 0 && r.value[0] == Context)
  {
    var r := Finish(e, rs);
    if r.Success? {
      if e.needsContext {
        assert r.value[0] == r.value[..Offset(e)][0];
      } else if |r.value| > 0 {
        assert rs[0] == Success(r.value[0]);
      }
    }
  }

  /** No argument after the first position is the context. */
  lemma FinishPutsNoContextAfterIt(e: Entry, rs: seq<Result<Arg, string>>)
    requires NoContext(rs)
    ensures var r := Finish(e, rs);
            r.Success? ==> forall i :: Offset(e) <= i < |r.value| ==> r.value[i] != Context
  {
    var r := Finish(e, rs);
    if r.Success? {
      forall i | Offset(e) <= i < |r.value|
        ensures r.value[i] != Context
      {
        assert rs[i - Offset(e)] == Success(r.value[i]);
      }
    }
  }

  /**
   * The arguments a handler is called with, from the request's params:
   * absent params give zero values, an array binds by position, an object
   * binds by name. The params reach the binder only after the sanity
   * check, so they have one of these three shapes.
   */
  function BindArguments(validator: Option<Validator>, convert: Converter, params: Json, e: Entry): (r: Result<seq<Arg>, string>)
    requires WellFormed(e) && ParamsShapeOk(params)
    ensures params.Null? && (exists p :: p in e.def.params && !p.optional) ==> r == Failure(MissingParamField)
    ensures params.Array? && |params.elems| != |e.def.params| ==> r == Failure(ListArityMismatch)
  {
    match params
    case Null =>
      if exists p :: p in e.def.params && !p.optional then Failure(MissingParamField)
      else Finish(e, Zeros(Declared(e)))
    case Array(elems) =>
      if |elems| != |e.def.params| then Failure(ListArityMismatch)
      else Finish(e, Positional(validator, convert, elems, Declared(e)))
    case Object(fields) =>
      Finish(e, Named(validator, convert, fields, e.def.params, Declared(e)))
  }

  /** What binding promises the call, whatever the shape of the params. */
  lemma BoundArgumentsMatchTheHandler(validator: Option<Validator>, convert: Converter, params: Json, e: Entry)
    requires WellFormed(e) && ParamsShapeOk(params)
    ensures var r := BindArguments(validator, convert, params, e);
            r.Success? ==>
              && |r.value| == |Inputs(e)|
              && (e.needsContext <==> |r.value| > 0 && r.value[0] == Context)
              && forall i :: Offset(e) <= i < |r.value| ==> r.value[i] != Context
  {
    var r := BindArguments(validator, convert, params, e);
    if r.Success? {
      var rs: seq<Result<Arg, string>>;
      if params.Null? {
        rs := Zeros(Declared(e));
      } else if params.Array? {
        rs := Positional(validator, convert, params.elems, Declared(e));
      } else {
        rs := Named(validator, convert, params.fields, e.def.params, Declared(e));
      }
      assert r == Finish(e, rs);
      FinishMatchesTheArity(e, rs);
      FinishPutsTheContextFirst(e, rs);
      FinishPutsNoContextAfterIt(e, rs);
    }
  }

  /** Absent or null params bind only when every parameter is optional, and then to zero values. */
  lemma AbsentParamsBindZeroValues(validator: Option<Validator>, convert: Converter, e: Entry)
    requires WellFormed(e)
    ensures var r := BindArguments(validator, convert, Null, e);
            && (r.Success? <==> forall p :: p in e.def.params ==> p.optional)
            && (r.Failure? ==> r.error == MissingParamField)
            && (r.Success? ==> forall i :: Offset(e) <= i < |r.value| ==> r.value[i] == Zero(Inputs(e)[i]))
  {
    var r := BindArguments(validator, convert, Null, e);
    if r.Success? {
      forall i | Offset(e) <= i < |r.value|
        ensures r.value[i] == Zero(Inputs(e)[i])
      {
        assert Zeros(Declared(e))[i - Offset(e)] == Success(r.value[i]);
      }
    }
  }

  /** Params by position: exactly one element per parameter, converted in order. */
  lemma PositionalParamsBindInOrder(validator: Option<Validator>, convert: Converter, elems: seq<Json>, e: Entry)
    requires WellFormed(e)
    ensures var r := BindArguments(validator, convert, Array(elems), e);
            && (|elems| != |e.def.params| ==> r == Failure(ListArityMismatch))
            && (r.Success? <==>
                  |elems| == |e.def.params| &&
                  forall i :: 0 <= i < |elems| ==> ParseParam(validator, convert, elems[i], Declared(e)[i]).Success?)
            && (r.Success? ==>
                  forall i :: 0 <= i < |elems| ==>
                    ParseParam(validator, convert, elems[i], Declared(e)[i]) == Success(r.value[Offset(e) + i]))
  {
    if |elems| == |e.def.params| {
      var rs := Positional(validator, convert, elems, Declared(e));
      assert forall i :: 0 <= i < |elems| ==> rs[i] == ParseParam(validator, convert, elems[i], Declared(e)[i]);
    }
  }

  /**
   * Params by name: each declared parameter is bound by its own rule, in
   * order, and the first one that fails names the error.
   */
  lemma NamedParamsBindByName(validator: Option<Validator>, convert: Converter, fields: map<string, Json>, e: Entry)
    requires WellFormed(e)
    ensures var r := BindArguments(validator, convert, Object(fields), e);
            var ps, ts := e.def.params, Declared(e);
            && (r.Success? <==> forall i :: 0 <= i < |ps| ==> BindOne(validator, convert, fields, ps[i], ts[i]).Success?)
            && (r.Success? ==>
                  forall i :: 0 <= i < |ps| ==> BindOne(validator, convert, fields, ps[i], ts[i]) == Success(r.value[Offset(e) + i]))
            && (r.Failure? ==>
                  exists i :: 0 <= i < |ps| &&
                    BindOne(validator, convert, fields, ps[i], ts[i]) == Failure(r.error) &&
                    forall j :: 0 <= j < i ==> BindOne(validator, convert, fields, ps[j], ts[j]).Success?)
  {
    var ps, ts := e.def.params, Declared(e);
    var rs := Named(validator, convert, fields, ps, ts);
    var r := BindArguments(validator, convert, Object(fields), e);
    assert r == Finish(e, rs);
    assert forall i :: 0 <= i < |rs| ==> rs[i] == BindOne(validator, convert, fields, ps[i], ts[i]);
    if r.Failure? {
      var i :| 0 <= i < |rs| && rs[i] == Failure(r.error) && forall j :: 0 <= j < i ==> rs[j].Success?;
      assert BindOne(validator, convert, fields, ps[i], ts[i]) == Failure(r.error);
    }
  }

  /** A required parameter missing from the object makes binding fail. */
  lemma MissingRequiredParamFails(validator: Option<Validator>, convert: Converter, fields: map<string, Json>, e: Entry, i: nat)
    requires WellFormed(e) && i < |e.def.params|
    requires e.def.params[i].name !in fields && !e.def.params[i].optional
    ensures BindArguments(validator, convert, Object(fields), e).Failure?
  {
    NamedParamsBindByName(validator, convert, fields, e);
  }

  /** A missing optional parameter is bound to the zero value of its declared type. */
  lemma MissingOptionalParamIsZero(validator: Option<Validator>, convert: Converter, fields: map<string, Json>, e: Entry, i: nat)
    requires WellFormed(e) && i < |e.def.params|
    requires e.def.params[i].name !in fields && e.def.params[i].optional
    requires BindArguments(validator, convert, Object(fields), e).Success?
    ensures BindArguments(validator, convert, Object(fields), e).value[Offset(e) + i] == Zero(Declared(e)[i])
  {
    NamedParamsBindByName(validator, convert, fields, e);
  }

  /** A parameter present in the object is bound to its converted member. */
  lemma PresentParamIsConverted(validator: Option<Validator>, convert: Converter, fields: map<string, Json>, e: Entry, i: nat)
    requires WellFormed(e) && i < |e.def.params|
    requires e.def.params[i].name in fields
    requires BindArguments(validator, convert, Object(fields), e).Success?
    ensures Success(BindArguments(validator, convert, Object(fields), e).value[Offset(e) + i]) ==
            ParseParam(validator, convert, fields[e.def.params[i].name], Declared(e)[i])
  {
    NamedParamsBindByName(validator, convert, fields, e);
  }

  /** Absent params: append the zero value of every declared input after the context. */
  method AppendZeros(e: Entry, args: seq<Arg>) returns (r: Result<seq<Arg>, string>)
    requires WellFormed(e) && args == ContextPrefix(e)
    ensures r == Finish(e, Zeros(Declared(e)))
  {
    var ins := Inputs(e);
    var out := args;
    for i := Offset(e) to |ins|
      invariant |out| == i && out[..Offset(e)] == ContextPrefix(e)
      invariant forall j :: Offset(e) <= j < i ==> out[j] == Zero(ins[j])
    {
      out := out + [Zero(ins[i])];
    }
    ghost var rs := Zeros(Declared(e));
    assert forall j :: 0 <= j < |rs| ==> rs[j] == Success(out[Offset(e)..][j]);
    CollectAll(rs, out[Offset(e)..]);
    assert out == ContextPrefix(e) + out[Offset(e)..];
    return Success(out);
  }

  /** Params by position: convert each element to the input at its position, stopping at the first error. */
  method AppendPositional(validator: Option<Validator>, convert: Converter, list: seq<Json>, e: Entry, args: seq<Arg>)
    returns (r: Result<seq<Arg>, string>)
    requires WellFormed(e) && |list| == |e.def.params| && args == ContextPrefix(e)
    ensures r == Finish(e, Positional(validator, convert, list, Declared(e)))
  {
    var ins := Inputs(e);
    var addContext := Offset(e);
    ghost var rs := Positional(validator, convert, list, Declared(e));
    var out := args;
    for i := 0 to |list|
      invariant |out| == addContext + i && out[..addContext] == ContextPrefix(e)
      invariant forall j :: 0 <= j < i ==> rs[j] == Success(out[addContext + j])
    {
      var v := ParseParam(validator, convert, list[i], ins[i + addContext]);
      if v.Failure? {
        assert rs[i] == v;
        CollectStopsAt(rs, i);
        return Failure(v.error);
      }
      out := out + [v.value];
    }
    CollectAll(rs, out[addContext..]);
    assert out == ContextPrefix(e) + out[addContext..];
    return Success(out);
  }

  /** Params by name: look each declared parameter up in the object, stopping at the first error. */
  method AppendNamed(validator: Option<Validator>, convert: Converter, fields: map<string, Json>, e: Entry, args: seq<Arg>)
    returns (r: Result<seq<Arg>, string>)
    requires WellFormed(e) && args == ContextPrefix(e)
    ensures r == Finish(e, Named(validator, convert, fields, e.def.params, Declared(e)))
  {
    var ins := Inputs(e);
    var addContext := Offset(e);
    var ps := e.def.params;
    ghost var rs := Named(validator, convert, fields, ps, Declared(e));
    var out := args;
    for i := 0 to |ps|
      invariant |out| == addContext + i && out[..addContext] == ContextPrefix(e)
      invariant forall j :: 0 <= j < i ==> rs[j] == Success(out[addContext + j])
    {
      var configured := ps[i];
      var v: Arg;
      if configured.name in fields {
        var parsed := ParseParam(validator, convert, fields[configured.name], ins[i + addContext]);
        if parsed.Failure? {
          assert rs[i] == parsed;
          CollectStopsAt(rs, i);
          return Failure(parsed.error);
        }
        v := parsed.value;
      } else if configured.optional {
        v := Zero(ins[i + addContext]);
      } else {
        assert rs[i] == Failure(MissingParam);
        CollectStopsAt(rs, i);
        return Failure(MissingParam);
      }
      out := out + [v];
    }
    CollectAll(rs, out[addContext..]);
    assert out == ContextPrefix(e) + out[addContext..];
    return Success(out);
  }

  /**
   * The binder as the server runs it: the context first when the handler
   * takes one, then the params appended one argument at a time.
   */
  method BuildArguments(validator: Option<Validator>, convert: Converter, params: Json, e: Entry)
    returns (r: Result<seq<Arg>, string>)
    requires WellFormed(e) && ParamsShapeOk(params)
    ensures r == BindArguments(validator, convert, params, e)
  {
    var args: seq<Arg> := [];
    if e.needsContext {
      args := args + [Context];
    }
    match params {
      case Null =>
        var allOptional := forall p | p in e.def.params :: p.optional;
        if |e.def.params| > 0 && !allOptional {
          return Failure(MissingParamField);
        }
        r := AppendZeros(e, args);
      case Array(list) =>
        if |list| != |Inputs(e)| - Offset(e) {
          return Failure(ListArityMismatch);
        }
        r := AppendPositional(validator, convert, list, e, args);
      case Object(fields) =>
        r := AppendNamed(validator, convert, fields, e, args);
    }
  }
}
