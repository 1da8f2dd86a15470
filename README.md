# JSON-RPC 2.0 dispatch engine, modelled in Dafny

This project models the dispatch engine of the `jsonrpc` package
(`jsonrpc/server.go`). It covers:

- the error table;
- the sanity check of a request envelope;
- method registration into the server's method table;
- telling a batch from a single request by peeking past whitespace;
- binding the request's params onto the handler's inputs: absent params, params by position and params by name, each with type conversion and optional recursive validation;
- running one request;
- running a batch;
- shaping what the server writes back.

Modules:

| file | module | what it holds |
|---|---|---|
| `wrappers.dfy` | `Wrappers` | `Option` and `Result` (with `:-` support) |
| `json.dfy` | `Json` | a decoded JSON value; bytes |
| `envelope.dfy` | `Envelope` | error codes, `Err`, request/response envelopes, `IsSane` |
| `framing.dfy` | `Framing` | whitespace skipping, the `ByteReader` class, the `IsBatch` peek/discard loop |
| `reflection.dfy` | `Reflection` | the run-time type facts the engine inspects: handler signatures, value kinds, arguments |
| `registry.dfy` | `Registry` | methods, handlers, registration rules, the table invariant, registration of a list |
| `binder.dfy` | `Binder` | `validateParam`, `parseParam`, argument binding as a specification and as loops |
| `dispatcher.dfy` | `Dispatcher` | request handling, batch aggregation, response shaping |
| `server.dfy` | `Jsonrpc` | `class Server` with its `methods` and `validator` fields and the imperative operations |

The registration, binding, batch and reader operations mutate state or loop
in the source. They are written as methods: on the `Server` class, on
`ByteReader`, or as loop methods in `Binder`. Each is proved equal to a
specification function. The properties the source promises are then proved
as lemmas about those functions.

The package says it implements the JSON-RPC 2.0 specification
(`jsonrpc/server.go:1`). Where the code departs from that specification, the
model follows the code:

- A notification is answered when its method is unknown or its params do not bind. Section 4.1 of the JSON-RPC 2.0 specification says a notification is never answered. The source builds the error response before it checks for a missing id (`jsonrpc/server.go:351-364` against `:372`). Only a notification whose handler actually ran is silent. `Dispatcher.HandleRequest` and `Dispatcher.NotificationToUnknownMethodIsAnswered` state this.
- A numeric id is refused only when its text contains a decimal point (`jsonrpc/server.go:87`). An exponent form such as `1e-3` is accepted (`Envelope.ExponentIdIsAccepted`).

Two further notes on batches:

- A request that fails its sanity check as part of a batch echoes its id unless the id was the reason. This is the same rule as for a single request.
- The source runs batch elements on a worker pool and collects responses in completion order, which is not determined. The model runs them one after the other and collects in submission order, which is one of the orders the source can produce.

## Model

| member | source | states |
|---|---|---|
| `Envelope.Err` | jsonrpc/server.go:55-68 | The four specific codes keep their code and fixed message; every other code becomes -32603 "Internal Error"; data is passed through unchanged |
| `Envelope.ErrKeepsExactlyTheProtocolCodes` | jsonrpc/server.go:20-26 | `Err` keeps a code exactly when it is one of the five protocol codes, and applying it twice is the same as once |
| `Envelope.IsSane` | jsonrpc/server.go:70-94 | Each failure (version not "2.0", empty method, params neither array nor object, id neither string nor point-free number) is reported exactly when the earlier checks passed; the request passes iff all four hold |
| `Envelope.SanityFailureResponse` | jsonrpc/server.go:226-230 | A sanity failure gives Invalid Request carrying the reason; the id is dropped iff the reason is the id |
| `Envelope.FractionalIdIsRefused` | jsonrpc/server.go:85-91 | An id `1.5` is refused with the id reason, and the response carries no id |
| `Envelope.ExponentIdIsAccepted` | jsonrpc/server.go:87 | An id `1e-3` passes the sanity check |
| `Framing.SkipWhitespace` | jsonrpc/server.go:316-326 | The skipped prefix consists of space, tab, CR and LF only, and it is maximal |
| `Framing.BlankIsNotBatch` | jsonrpc/server.go:315-330 | Empty or all-whitespace input is not a batch and leaves nothing to decode |
| `Framing.WhitespaceIsInsignificant` | jsonrpc/server.go:321-325 | Leading whitespace changes neither the batch verdict nor what the decoder reads |
| `Framing.LookaheadStopsAtFirstSignificantByte` | jsonrpc/server.go:327 | Bytes after the first significant byte never change the verdict |
| `Framing.ByteReader.Discard` | jsonrpc/server.go:322 | Discarding consumes exactly one byte when one is left and reports the count |
| `Framing.IsBatch` | jsonrpc/server.go:315-330 | The loop returns true iff the first non-whitespace byte is `[`, and leaves the reader exactly at that byte |
| `Registry.RegistrationError` | jsonrpc/server.go:163-183 | Registration fails iff the handler is not a function, the non-context arity differs from the parameter count, there are not two outputs, or the second output is not `*Error`; the first failing check names the error |
| `Registry.InstallKeepsValid` | jsonrpc/server.go:185-186 | Installing a registrable method keeps every entry well formed and filed under its name, and adds exactly its name |
| `Registry.RegisterAllStopsAtFirstFailure` | jsonrpc/server.go:154-161 | Registering a list installs exactly the methods before the first bad one and reports that one's error |
| `Registry.RegisterAllKeepsValid` | jsonrpc/server.go:154-161 | Registering a list keeps the table invariant |
| `Registry.InstallAllKeepsOtherNames` | jsonrpc/server.go:186 | A name none of the registered methods carries keeps its entry, or its absence |
| `Registry.InstallAllLastWriteWins` | jsonrpc/server.go:186 | On duplicate names the last registration wins |
| `Binder.ValidateParam` | jsonrpc/server.go:477-501 | A struct or pointer to struct gets the validator's verdict; a slice, array or map is walked element by element and gives the first failing element's error; scalars, interfaces and nil pointers pass |
| `Binder.ValidateEach` | jsonrpc/server.go:486-497 | Elements pass iff each passes; otherwise the first failing element's error is returned |
| `Binder.ValidatorSeesOnlyStructs` | jsonrpc/server.go:479-483 | Two validators that agree on struct-like values give the same verdict on every value: only structs are shown to it |
| `Binder.ParseParam` | jsonrpc/server.go:456-475 | Conversion errors pass through; the validator is consulted only when configured; success binds the converted value |
| `Binder.Collect` | jsonrpc/server.go:422-427 | All values in order when every conversion succeeds, else the first failure's error |
| `Binder.FinishMatchesTheArity` | jsonrpc/server.go:388-395 | A successful binding with the context yields exactly as many arguments as the handler's inputs |
| `Binder.FinishPutsTheContextFirst` | jsonrpc/server.go:392-395 | The first argument is the context exactly when the handler needs one |
| `Binder.FinishPutsNoContextAfterIt` | jsonrpc/server.go:392-395 | No argument after the context position is the context |
| `Binder.BindArguments` | jsonrpc/server.go:397-421 | On params that passed the sanity check: absent params with a required parameter give "missing non-optional param field"; a list whose length differs from the parameter count gives "missing/unexpected params in list" |
| `Binder.BoundArgumentsMatchTheHandler` | jsonrpc/server.go:385-453 | On success, for every params shape, NumIn arguments, the context first iff needed and nowhere else |
| `Binder.AbsentParamsBindZeroValues` | jsonrpc/server.go:397-412 | Absent params bind iff every parameter is optional, then to zero values; otherwise "missing non-optional param field" |
| `Binder.PositionalParamsBindInOrder` | jsonrpc/server.go:415-428 | A list must have one element per parameter; it binds iff each element converts, each to its position |
| `Binder.NamedParamsBindByName` | jsonrpc/server.go:429-448 | An object binds iff every parameter binds by its name rule, in order; the first failing parameter names the error |
| `Binder.MissingRequiredParamFails` | jsonrpc/server.go:443-445 | A required parameter missing from the object fails the binding |
| `Binder.MissingOptionalParamIsZero` | jsonrpc/server.go:440-442 | A missing optional parameter gets the zero value of its declared type |
| `Binder.PresentParamIsConverted` | jsonrpc/server.go:434-439 | A present parameter is bound to its converted member |
| `Binder.AppendZeros` | jsonrpc/server.go:406-411 | The zero-value loop produces the specified binding for absent params |
| `Binder.AppendPositional` | jsonrpc/server.go:422-428 | The positional loop produces the specified binding, stopping at the first conversion error |
| `Binder.AppendNamed` | jsonrpc/server.go:432-448 | The by-name loop produces the specified binding, stopping at the first failing parameter |
| `Binder.BuildArguments` | jsonrpc/server.go:385-454 | The binder as written agrees with the binding specification on every input |
| `Dispatcher.HandleRequest` | jsonrpc/server.go:336-383 | Refused iff insane; the id is always echoed; unknown method gives Method Not Found before the notification check; a bind failure gives Invalid Params with the message; silent iff a notification was handled; otherwise the handler's error is passed verbatim, else its result |
| `Dispatcher.NotificationToUnknownMethodIsAnswered` | jsonrpc/server.go:351-355 | A notification to an unknown method is still answered with Method Not Found |
| `Dispatcher.ElementResponse` | jsonrpc/server.go:276-300 | An undecodable element is Invalid Request with no id; a decoded element failing its sanity check gets the sanity-failure response; a decoded, sane element gets exactly the request handler's answer; an element is silent iff it is a handled notification |
| `Dispatcher.BatchResponses` | jsonrpc/server.go:258-266 | The batch has at most one response per element, and every response in it marshals |
| `Dispatcher.BatchMembership` | jsonrpc/server.go:299-302 | A response is in the batch iff some element yields it and it marshals |
| `Dispatcher.BatchResponsesAppend` | jsonrpc/server.go:272-304 | The responses of two runs of elements are those of each, in element order |
| `Dispatcher.SilentBatch` | jsonrpc/server.go:299-302 | The batch collects nothing iff no element's response exists and marshals |
| `Dispatcher.Emit` | jsonrpc/server.go:249 | A single response is written iff it marshals |
| `Dispatcher.BatchOutput` | jsonrpc/server.go:307-312 | No responses give no bytes, never an empty array |
| `Dispatcher.Outcome` | jsonrpc/server.go:212-250 | Never an empty array; a written single response marshals; a batch answer holds at most one response per element (each path of the stream is stated exactly by the lemmas below) |
| `Dispatcher.UndecodableRequestIsAParseError` | jsonrpc/server.go:222-225 | A single request that does not decode is always answered: the server writes the Parse error carrying the decoder's message, with no id, whenever that response marshals |
| `Dispatcher.SaneRequestPassesThrough` | jsonrpc/server.go:222-249 | A decoded, sane single request writes the request handler's response, marshalled, or nothing exactly when that handler stayed silent |
| `Dispatcher.InsaneRequestIsInvalid` | jsonrpc/server.go:226-230 | A single insane request is always answered: the server writes Invalid Request with the reason whenever it marshals; its id is null iff the id was the reason or absent |
| `Dispatcher.EmptyBatchIsInvalid` | jsonrpc/server.go:239-240 | An empty batch is always answered: the server writes one Invalid Request "empty batch", with no id, whenever it marshals |
| `Dispatcher.UndecodableBatchIsAParseError` | jsonrpc/server.go:237-238 | A batch that does not decode is always answered: the server writes the Parse error carrying the decoder's message, with no id, whenever it marshals |
| `Dispatcher.BatchOfNotificationsWritesNothing` | jsonrpc/server.go:241-312 | A decoded, non-empty batch writes exactly the batch's responses, in order, as one array; it writes nothing iff none of its elements is answered |
| `Dispatcher.LeadingWhitespaceIsIgnored` | jsonrpc/server.go:213-219 | Whitespace ahead of the request changes nothing the server writes |
| `Jsonrpc.Server.constructor` | jsonrpc/server.go:124-133 | A new server has an empty method table and no validator |
| `Jsonrpc.Server.WithValidator` | jsonrpc/server.go:136-139 | Sets the validator field to the given validator, or to none for a nil one, which turns validation off; nothing else changes |
| `Jsonrpc.Server.RegisterMethod` | jsonrpc/server.go:163-189 | Returns the registration error; on failure the table is unchanged, on success only the method's name is (over)written, and the table invariant holds |
| `Jsonrpc.Server.RegisterMethods` | jsonrpc/server.go:154-161 | The loop leaves the table and error the list registration specifies: stop at the first failure, keep earlier insertions |
| `Jsonrpc.Server.HandleRequest` | jsonrpc/server.go:336-383 | Running the request with the loop binder gives the specified handling |
| `Jsonrpc.Server.HandleElement` | jsonrpc/server.go:273-302 | One batch element is answered as specified |
| `Jsonrpc.Server.HandleBatchRequest` | jsonrpc/server.go:252-313 | The batch loop writes the specified responses, in order, or no bytes when there are none |
| `Jsonrpc.Server.HandleReader` | jsonrpc/server.go:212-250 | Peeking, decoding and shaping give the specified outcome for every input stream |

## Left out

- JSON decoding and encoding are functions of a `Codec` value the engine is given: decoding a request, decoding a batch into raw elements, and whether a response marshals. Number text is kept as it was decoded (`UseNumber`). The wire form, including `omitempty` dropping a null result, is not modelled.
- Go reflection is reduced to what the engine inspects. A handler type is a function type with input and output types, or not a function. An input type is a context, `*Error`, or another type by name. A value's kind is struct, pointer, interface, slice or array, map, or scalar.
- The `parseParam` round trip (marshal, then unmarshal into the declared type) is a conversion function of `Codec`. A marshal failure and an unmarshal failure are both its error.
- `Validator.Struct` is a function from a value to an optional error. A map's values are walked in the order the runtime iterates them, which the model fixes as a sequence.
- A handler is a function from its arguments to its reply. Its side effects, including those of a notification whose reply is dropped, and panics are not modelled. A nil handler, which panics in the source at registration, cannot be expressed.
- The worker pool, wait group, mutex and context cancellation of `handleBatchRequest` are not modelled. Elements run in submission order.
- The event listener, logging, handler timing, `WithListener`, `NewServer`'s pool and logger arguments, `ConnFromContext` and the bufio buffer size are not modelled.
- `Handle` only wraps its bytes in a reader for `HandleReader`, so it is not modelled separately.
- The model's binder requires params that are absent, an array or an object, which the sanity check guarantees before binding. The source's fallback for any other shape (`jsonrpc/server.go:449-451`) is never reached: on a bool, number or string, `isNil` panics first. So neither the fallback nor the panic is modelled.
- The marshal of a batch's array of already-marshalled responses is taken to succeed.
- `Jsonrpc.Server.WithValidator`: the source returns the server for chaining; the model only sets the field.
