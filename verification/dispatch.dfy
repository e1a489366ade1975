/** The websocket request dispatcher `DappWsAPI` (models/model.js:28-73):
    a registry from method names to handler functions, and `handle`, which
    routes one request to its handler and stamps the request's identity on
    the reply. Handlers are opaque values of the type parameter `H`; what a
    handler computes is the parameter `call`. */
module Dispatch {
  import opened Wrappers

  /** A JSON value as carried by requests and replies. */
  datatype Json =
    | JNull
    | JBool(b: bool)
    | JNum(n: int)
    | JStr(s: string)
    | JArr(items: seq<Json>)
    | JObj(fields: map<string, Json>)

  /** An incoming request `{Method, Id, Params}`. */
  datatype Request = Request(methodName: string, id: Json, params: Json)

  /** Error kinds of the websocket RPC protocol used here. */
  datatype ErrorCode = NoMethod | InvalidParams

  /** What `handle` gives back: the handler's reply object, or an error
      envelope built by `getWsErrorDetailed`. */
  datatype Envelope = Reply(fields: map<string, Json>) | Fault(code: ErrorCode, message: string)

  /** The envelope together with the handlers invoked to produce it, in order. */
  datatype Handled<H> = Handled(envelope: Envelope, invoked: seq<H>)

  /** An argument passed to `registerMethod`: JavaScript data, or a function. */
  datatype JsValue<H> = Data(json: Json) | Function(fn: H)

  /** The registry `methods`; every entry holds a function. */
  type Registry<H> = map<string, H>

  const NoHandlerPrefix := "No handler for method: "
  const NameNotString := "API method name is not a string"
  const MethodNotFunction := "API method is not a function"

  /** `typeof(v) === "string"`. */
  predicate IsString<H>(v: JsValue<H>) {
    v.Data? && v.json.JStr?
  }

  /** The identity stamp `jsonResp.Method = req.Method; jsonResp.Id = req.Id`. */
  function Stamp(result: map<string, Json>, req: Request): (r: map<string, Json>)
    ensures r.Keys == result.Keys + {"Method", "Id"}
    ensures r["Method"] == JStr(req.methodName) && r["Id"] == req.id
    ensures forall k :: k in result && k != "Method" && k != "Id" ==> r[k] == result[k]
  {
    result["Method" := JStr(req.methodName)]["Id" := req.id]
  }

  /** `handle(req)`: an unknown method gives a NoMethod fault naming it and
      invokes nothing; a known one invokes exactly its handler once, on the
      request's params, and returns that handler's object with the request's
      `Method` and `Id` stamped over it. */
  function Handle<H>(reg: Registry<H>, call: (H, Json) -> map<string, Json>, req: Request): (r: Handled<H>)
    ensures req.methodName !in reg <==> r.envelope.Fault?
    ensures req.methodName !in reg ==>
              && r.invoked == []
              && r.envelope.code == NoMethod
              && |r.envelope.message| == |NoHandlerPrefix| + |req.methodName|
              && r.envelope.message[..|NoHandlerPrefix|] == NoHandlerPrefix
              && r.envelope.message[|NoHandlerPrefix|..] == req.methodName
    ensures req.methodName in reg ==>
              && r.invoked == [reg[req.methodName]]
              && r.envelope.Reply?
              && r.envelope.fields.Keys == call(reg[req.methodName], req.params).Keys + {"Method", "Id"}
  {
    if req.methodName !in reg then
      Handled(Fault(NoMethod, NoHandlerPrefix + req.methodName), [])
    else
      var h := reg[req.methodName];
      Handled(Reply(Stamp(call(h, req.params), req)), [h])
  }

  /** Request identity is dispatcher-owned: whatever the handler puts in
      `Method` and `Id`, the reply carries the request's, and every other
      field is the handler's. */
  lemma HandleEchoesIdentity<H>(reg: Registry<H>, call: (H, Json) -> map<string, Json>, req: Request)
    requires req.methodName in reg
    ensures var out := call(reg[req.methodName], req.params);
            var r := Handle(reg, call, req).envelope;
            && r.Reply?
            && r.fields["Method"] == JStr(req.methodName)
            && r.fields["Id"] == req.id
            && (forall k :: k != "Method" && k != "Id" ==> (k in r.fields <==> k in out))
            && (forall k :: k in out && k != "Method" && k != "Id" ==> r.fields[k] == out[k])
  {
  }

  /** `registerMethod(name, method)`: a non-string name or a non-function
      method throws a TypeError (the name is checked first); otherwise the
      name maps to the new handler, replacing any earlier one. */
  function Register<H>(reg: Registry<H>, name: JsValue<H>, handler: JsValue<H>): (r: Completion<Registry<H>>)
    ensures !IsString(name) ==> r == Threw(TypeError(NameNotString))
    ensures IsString(name) && !handler.Function? ==> r == Threw(TypeError(MethodNotFunction))
    ensures IsString(name) && handler.Function? ==>
              && r.Returned?
              && r.value.Keys == reg.Keys + {name.json.s}
              && r.value[name.json.s] == handler.fn
              && (forall k :: k in reg && k != name.json.s ==> r.value[k] == reg[k])
  {
    if !IsString(name) then Threw(TypeError(NameNotString))
    else if !handler.Function? then Threw(TypeError(MethodNotFunction))
    else Returned(reg[name.json.s := handler.fn])
  }

  /** A registration that throws leaves the registry as it was. */
  function RegisterOrKeep<H>(reg: Registry<H>, name: JsValue<H>, handler: JsValue<H>): Registry<H>
  {
    match Register(reg, name, handler)
    case Returned(next) => next
    case Threw(_) => reg
  }

  /** After registering `name` with `f`, a request for `name` invokes `f`,
      even if `name` was registered before (the last registration wins). */
  lemma RegisteredHandlerIsInvoked<H>(reg: Registry<H>, name: string, f: H, call: (H, Json) -> map<string, Json>, req: Request)
    requires req.methodName == name
    ensures Handle(RegisterOrKeep(reg, Data(JStr(name)), Function(f)), call, req).invoked == [f]
  {
  }

  /** Registering twice under one name leaves only the second handler reachable. */
  lemma {:induction false} LastRegistrationWins<H>(reg: Registry<H>, name: string, f: H, g: H, call: (H, Json) -> map<string, Json>, req: Request)
    requires req.methodName == name
    ensures var twice := RegisterOrKeep(RegisterOrKeep(reg, Data(JStr(name)), Function(f)), Data(JStr(name)), Function(g));
            Handle(twice, call, req) == Handled(Reply(Stamp(call(g, req.params), req)), [g])
  {
    var once := RegisterOrKeep(reg, Data(JStr(name)), Function(f));
    RegisteredHandlerIsInvoked(once, name, g, call, req);
  }

  /** Registering one name, successfully or not, does not change how
      requests for any other method are handled. */
  lemma RegisterKeepsOtherRoutes<H>(reg: Registry<H>, name: JsValue<H>, handler: JsValue<H>, call: (H, Json) -> map<string, Json>, req: Request)
    requires !IsString(name) || req.methodName != name.json.s
    ensures Handle(RegisterOrKeep(reg, name, handler), call, req) == Handle(reg, call, req)
  {
  }

  // ---- models/model.js:70 as written ----

  /** `registerMethod` as written: after both type checks it evaluates
      `methods[name] = fn`, and `fn` is not bound anywhere, so every call
      that gets past the checks throws a ReferenceError. */
  function RegisterAsWritten<H>(reg: Registry<H>, name: JsValue<H>, handler: JsValue<H>): (r: Completion<Registry<H>>)
    ensures r.Threw?
    ensures !IsString(name) ==> r == Threw(TypeError(NameNotString))
    ensures IsString(name) && !handler.Function? ==> r == Threw(TypeError(MethodNotFunction))
    ensures !(IsString(name) && handler.Function?) ==> r == Register(reg, name, handler)
    ensures IsString(name) && handler.Function? ==> r.exception == ReferenceError("fn is not defined")
  {
    if !IsString(name) then Threw(TypeError(NameNotString))
    else if !handler.Function? then Threw(TypeError(MethodNotFunction))
    else Threw(ReferenceError("fn is not defined"))
  }

  /** As written, registering "ping" with a function fails, so a following
      "ping" request gets a NoMethod fault; the corrected registration
      routes it to the function. */
  lemma RegisterAsWrittenLosesHandler<H>(f: H, call: (H, Json) -> map<string, Json>)
    ensures var req := Request("ping", JNum(1), JNull);
            && RegisterAsWritten(map[], Data(JStr("ping")), Function(f)).Threw?
            && Handle(map[], call, req).envelope.Fault?
            && Handle(RegisterOrKeep(map[], Data(JStr("ping")), Function(f)), call, req).invoked == [f]
  {
  }
}
