/**
 * Methods, their handlers, and the rules registration enforces before a
 * method enters the server's table (jsonrpc/server.go, lines 96-109 and
 * 147-189). The table itself is a field of the server class; this module
 * holds what is said about its contents.
 */
module Registry {
  import opened Wrappers
  import opened Json
  import opened Envelope
  import opened Reflection

  /** What a handler returns: its result value and its `*Error`, nil or not. */
  datatype Reply = Reply(result: Json, error: Option<RpcError>)

  /** A handler: its Go type, and what it returns for the arguments it is called with. */
  datatype Handler = Handler(typ: HandlerType, call: seq<Arg> -> Reply)

  datatype Parameter = Parameter(name: string, optional: bool)

  datatype Method = Method(name: string, params: seq<Parameter>, handler: Handler)

  /**
   * A registered method together with the flag registration derives: the
   * handler takes the request's context as its first argument.
   */
  datatype Entry = Entry(def: Method, needsContext: bool)

  predicate TakesContext(t: HandlerType) {
    t.Func? && |t.ins| > 0 && t.ins[0] == ContextType
  }

  /** The number of handler inputs the params bind: a leading context is not counted. */
  function Arity(t: HandlerType): nat
    requires t.Func?
  {
    if TakesContext(t) then |t.ins| - 1 else |t.ins|
  }

  /** The shape a method must have to be registered. */
  predicate Registrable(m: Method) {
    var t := m.handler.typ;
    && t.Func?
    && Arity(t) == |m.params|
    && |t.outs| == 2
    && t.outs[1] == ErrorPointerType
  }

  /** The checks of registration, in order; the first that fails names the error. */
  function RegistrationError(m: Method): (r: Option<string>)
    ensures r.None? <==> Registrable(m)
    ensures !m.handler.typ.Func? ==> r == Some("handler must be a function")
    ensures m.handler.typ.Func? && Arity(m.handler.typ) != |m.params| ==>
              r == Some("number of non-context function params and param names must match")
    ensures m.handler.typ.Func? && Arity(m.handler.typ) == |m.params| && |m.handler.typ.outs| != 2 ==>
              r == Some("handler must return 2 values")
    ensures m.handler.typ.Func? && Arity(m.handler.typ) == |m.params| && |m.handler.typ.outs| == 2 &&
            m.handler.typ.outs[1] != ErrorPointerType ==>
              r == Some("second return value must be a *jsonrpc.Error")
  {
    var t := m.handler.typ;
    if !t.Func? then Some("handler must be a function")
    else if Arity(t) != |m.params| then Some("number of non-context function params and param names must match")
    else if |t.outs| != 2 then Some("handler must return 2 values")
    else if t.outs[1] != ErrorPointerType then Some("second return value must be a *jsonrpc.Error")
    else None
  }

  /** How a method is stored once it passed registration. */
  function EntryFor(m: Method): Entry {
    Entry(m, TakesContext(m.handler.typ))
  }

  /** The position of the context argument, if any, among the handler's inputs. */
  function Offset(e: Entry): nat {
    if e.needsContext then 1 else 0
  }

  /** What every stored entry satisfies: a registrable method with its flag derived from its type. */
  predicate WellFormed(e: Entry) {
    Registrable(e.def) && e.needsContext == TakesContext(e.def.handler.typ)
  }

  /** The handler's declared inputs: one per declared parameter after the context. */
  function Inputs(e: Entry): (ins: seq<GoType>)
    requires WellFormed(e)
    ensures |ins| == Offset(e) + |e.def.params|
    ensures e.needsContext ==> ins[0] == ContextType
  {
    e.def.handler.typ.ins
  }

  /** The table invariant: every entry is well formed and filed under its own name. */
  predicate RegistryValid(reg: map<string, Entry>) {
    forall name | name in reg :: reg[name].def.name == name && WellFormed(reg[name])
  }

  /** A successful registration: the method's name now maps to it, whatever was there before. */
  function Install(reg: map<string, Entry>, m: Method): map<string, Entry> {
    reg[m.name := EntryFor(m)]
  }

  lemma InstallKeepsValid(reg: map<string, Entry>, m: Method)
    requires RegistryValid(reg) && Registrable(m)
    ensures RegistryValid(Install(reg, m))
    ensures Install(reg, m).Keys == reg.Keys + {m.name}
  {
  }

  /** Successful registrations of `ms`, in order. */
  function InstallAll(reg: map<string, Entry>, ms: seq<Method>): map<string, Entry>
    decreases |ms|
  {
    if ms == [] then reg else InstallAll(Install(reg, ms[0]), ms[1..])
  }

  /** Registering a list: stop at the first method that fails, keeping what went in before it. */
  function RegisterAll(reg: map<string, Entry>, ms: seq<Method>): (map<string, Entry>, Option<string>)
    decreases |ms|
  {
    if ms == [] then (reg, None)
    else match RegistrationError(ms[0])
      case Some(e) => (reg, Some(e))
      case None => RegisterAll(Install(reg, ms[0]), ms[1..])
  }

  /** The index of the first method that cannot be registered, or the length if there is none. */
  function FirstUnregistrable(ms: seq<Method>): (k: nat)
    ensures k <= |ms|
    ensures forall j :: 0 <= j < k ==> Registrable(ms[j])
    ensures k < |ms| ==> !Registrable(ms[k])
  {
    if ms == [] || !Registrable(ms[0]) then 0 else 1 + FirstUnregistrable(ms[1..])
  }

  /**
   * Registering a list installs exactly the methods before the first bad
   * one and reports that one's error, or nothing when all pass.
   */
  lemma {:induction false} RegisterAllStopsAtFirstFailure(reg: map<string, Entry>, ms: seq<Method>)
    ensures var k := FirstUnregistrable(ms);
            RegisterAll(reg, ms) == (InstallAll(reg, ms[..k]), if k == |ms| then None else RegistrationError(ms[k]))
    decreases |ms|
  {
    if ms != [] && Registrable(ms[0]) {
      RegisterAllStopsAtFirstFailure(Install(reg, ms[0]), ms[1..]);
      var k := FirstUnregistrable(ms);
      assert ms[..k][1..] == ms[1..][..k - 1];
    } else {
      assert ms[..0] == [];
    }
  }

  /** Whatever was registered, the table invariant still holds. */
  lemma {:induction false} RegisterAllKeepsValid(reg: map<string, Entry>, ms: seq<Method>)
    requires RegistryValid(reg)
    ensures RegistryValid(RegisterAll(reg, ms).0)
    decreases |ms|
  {
    if ms != [] && RegistrationError(ms[0]).None? {
      InstallKeepsValid(reg, ms[0]);
      RegisterAllKeepsValid(Install(reg, ms[0]), ms[1..]);
    }
  }

  /** A name none of `ms` carries keeps its entry, or its absence. */
  lemma {:induction false} InstallAllKeepsOtherNames(reg: map<string, Entry>, ms: seq<Method>, name: string)
    requires forall j :: 0 <= j < |ms| ==> ms[j].name != name
    ensures name in InstallAll(reg, ms) <==> name in reg
    ensures name in reg ==> InstallAll(reg, ms)[name] == reg[name]
    decreases |ms|
  {
    if ms != [] {
      InstallAllKeepsOtherNames(Install(reg, ms[0]), ms[1..], name);
    }
  }

  /** On a duplicate name the last registration wins. */
  lemma {:induction false} InstallAllLastWriteWins(reg: map<string, Entry>, ms: seq<Method>, j: nat)
    requires j < |ms|
    requires forall l :: j < l < |ms| ==> ms[l].name != ms[j].name
    ensures ms[j].name in InstallAll(reg, ms)
    ensures InstallAll(reg, ms)[ms[j].name] == EntryFor(ms[j])
    decreases |ms|
  {
    if j == 0 {
      InstallAllKeepsOtherNames(Install(reg, ms[0]), ms[1..], ms[0].name);
    } else {
      InstallAllLastWriteWins(Install(reg, ms[0]), ms[1..], j - 1);
    }
  }
}
