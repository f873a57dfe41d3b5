/** Server dispatch of main/rpc/handler.go: registration of methods by their types, and the
    handling of one call from lookup to response. */
module Dispatch {
  import opened Words
  import opened RpcMessages

  // -------------------------------------------------------------------- types

  datatype GoType = ContextType | ErrorType | ChanType | Other(name: string)

  /** Input types (the receiver first, for a method) and output types. */
  datatype FuncType = FuncType(ins: seq<GoType>, outs: seq<GoType>)

  datatype Method = Method(name: string, typ: FuncType)

  /** valOut and errOut are positions among the outputs, -1 when absent. */
  datatype Handler = Handler(paramReceivers: seq<GoType>, nParams: nat, typ: FuncType, hasCtx: nat,
                             errOut: int, valOut: int)

  const METHOD_NOT_FOUND := -32601
  const INVALID_PARAMS := -32602
  const PARSE_ERROR := -32700
  const CALL_FAILED := 0

  /** At most two outputs, the second of two an error. */
  predicate Supported(outs: seq<GoType>) {
    |outs| <= 2 && (|outs| == 2 ==> outs[1] == ErrorType)
  }

  /** The last output is an error. */
  predicate ReportsError(outs: seq<GoType>) {
    outs != [] && outs[|outs| - 1] == ErrorType
  }

  /** There is an output other than a lone error. */
  predicate ReturnsValue(outs: seq<GoType>) {
    outs != [] && outs != [ErrorType]
  }

  /** Positions of the value and the error among the outputs: every output is one of them. */
  ghost predicate Positions(outs: seq<GoType>, valOut: int, errOut: int) {
    && errOut == (if ReportsError(outs) then |outs| - 1 else -1)
    && valOut == (if ReturnsValue(outs) then 0 else -1)
    && |outs| == (if valOut == -1 then 0 else 1) + (if errOut == -1 then 0 else 1)
  }

  /** processFuncOut; `None` is a panic. */
  function FuncOut(outs: seq<GoType>): (r: Option<(int, int)>)
    ensures r.Some? <==> Supported(outs)
    ensures r.Some? ==> Positions(outs, r.value.0, r.value.1)
  {
    match |outs|
    case 0 => Some((-1, -1))
    case 1 => if outs[0] == ErrorType then Some((-1, 0)) else Some((0, -1))
    case 2 => if outs[1] == ErrorType then Some((0, 1)) else None
    case _ => None
  }

  function HasCtx(m: FuncType): nat {
    if |m.ins| >= 2 && m.ins[1] == ContextType then 1 else 0
  }

  /** A handler fits its method: one receiver per input after receiver and context, in order. */
  ghost predicate Fits(h: Handler, typ: FuncType) {
    && h.typ == typ
    && h.hasCtx == (if |typ.ins| >= 2 && typ.ins[1] == ContextType then 1 else 0)
    && |typ.ins| == 1 + h.hasCtx + h.nParams
    && h.paramReceivers == typ.ins[1 + h.hasCtx..]
    && Supported(typ.outs) && Positions(typ.outs, h.valOut, h.errOut)
  }

  ghost predicate Registered(handlers: map<string, Handler>, namespace: string, m: Method) {
    var key := namespace + "." + m.name;
    key in handlers && Fits(handlers[key], m.typ)
  }

  ghost predicate Names(namespace: string, methods: seq<Method>, key: string) {
    exists i :: 0 <= i < |methods| && key == namespace + "." + methods[i].name
  }

  /** Handlers of other names are as before. */
  ghost predicate OthersKept(before: map<string, Handler>, after: map<string, Handler>, namespace: string,
                             methods: seq<Method>) {
    forall key :: key in before && !Names(namespace, methods, key) ==> key in after && after[key] == before[key]
  }

  /** Fills the handlers map for every method of a receiver. Go's method sets have distinct
      names and every method has its receiver as first input. The result is false where the
      source panics over a method's outputs. */
  method Register(handlers: map<string, Handler>, namespace: string, methods: seq<Method>)
    returns (after: map<string, Handler>, ok: bool)
    requires forall i :: 0 <= i < |methods| ==> |methods[i].typ.ins| >= 1
    requires forall i, j :: 0 <= i < j < |methods| ==> methods[i].name != methods[j].name
    ensures ok <==> forall i :: 0 <= i < |methods| ==> Supported(methods[i].typ.outs)
    ensures ok ==> forall i :: 0 <= i < |methods| ==> Registered(after, namespace, methods[i])
    ensures ok ==> OthersKept(handlers, after, namespace, methods)
  {
    after, ok := handlers, true;
    for i := 0 to |methods|
      invariant forall k :: 0 <= k < i ==> Supported(methods[k].typ.outs)
      invariant forall k :: 0 <= k < i ==> Registered(after, namespace, methods[k])
      invariant OthersKept(handlers, after, namespace, methods[..i])
    {
      var m := methods[i];
      var hasCtx := HasCtx(m.typ);
      var ins := |m.typ.ins| - 1 - hasCtx;
      var recvs := TakeReceivers(m.typ.ins, ins, hasCtx);
      var outs := FuncOut(m.typ.outs);
      if outs.None? {
        ok := false;
        return;
      }
      forall k | 0 <= k < i ensures namespace + "." + methods[k].name != namespace + "." + m.name {
        QualifiedInjective(namespace, methods[k].name, m.name);
      }
      assert methods[..i + 1] == methods[..i] + [m];
      after := after[namespace + "." + m.name := Handler(recvs, ins, m.typ, hasCtx, outs.value.1, outs.value.0)];
    }
    assert methods[..|methods|] == methods;
  }

  lemma QualifiedInjective(namespace: string, a: string, b: string)
    requires a != b
    ensures namespace + "." + a != namespace + "." + b
  {
    var n := |namespace| + 1;
    assert (namespace + "." + a)[n..] == a && (namespace + "." + b)[n..] == b;
  }

  /** The inner loop of register. */
  method TakeReceivers(types: seq<GoType>, ins: nat, hasCtx: nat) returns (recvs: seq<GoType>)
    requires |types| == 1 + hasCtx + ins
    ensures recvs == types[1 + hasCtx..]
  {
    var out := new GoType[ins](_ => ErrorType);
    for i := 0 to ins
      invariant forall k :: 0 <= k < i ==> out[k] == types[k + 1 + hasCtx]
    {
      out[i] := types[i + 1 + hasCtx];
    }
    recvs := out[..];
  }

  // ------------------------------------------------------------------ handling

  /** An argument of the reflective call. */
  datatype Arg = Receiver | Ctx | Val(v: Value)

  /** What the called method does: it panics, or returns a value and an error message. */
  datatype Result = Panicked | Returned(value: ReturnValue, error: Option<string>)
  datatype ReturnValue = Nil | Plain(v: Value) | Chan(ch: nat)

  /** One reflective call. */
  datatype Invocation = Invocation(args: seq<Arg>, result: Result)

  /** The registered handlers, JSON decoding into a type, and what each method may return for
      which arguments; methods need not be deterministic. */
  datatype Service = Service(handlers: map<string, Handler>,
                             decode: (GoType, Value) -> Option<Value>,
                             behaves: (string, seq<Arg>, Result) -> bool)

  ghost predicate HandlersOk(handlers: map<string, Handler>) {
    forall key :: key in handlers ==> exists typ :: Fits(handlers[key], typ)
  }

  /** A response before a channel in it has been exchanged for an id. */
  datatype Draft = Draft(result: ReturnValue, error: Option<RespError>)

  datatype Response = Response(id: Id, result: Option<Value>, error: Option<RespError>)

  function Respond(id: Id, d: Draft, chan: Option<ChanId>): Response {
    Response(id,
      match d.result
        case Nil => None
        case Plain(v) => Some(v)
        case Chan(_) => if chan.Some? then Some(Number(chan.value)) else None,
      d.error)
  }

  predicate OutChannel(h: Handler) {
    0 <= h.valOut < |h.typ.outs| && h.typ.outs[h.valOut] == ChanType
  }

  /** The code of a dispatch error; its text is not modelled. */
  function Failure(code: int): Draft {
    Draft(Nil, Some(RespError(code, "")))
  }

  /** What a method's own return values make of the response. */
  function DraftOf(h: Handler, r: Result): Draft
    requires r.Returned?
  {
    Draft(if h.valOut == -1 then Nil else r.value,
          if h.errOut != -1 && r.error.Some? then Some(RespError(1, r.error.value)) else None)
  }

  predicate Decodes(h: Handler, params: seq<Value>, decode: (GoType, Value) -> Option<Value>) {
    && |params| == |h.paramReceivers|
    && forall i :: 0 <= i < |params| ==> decode(h.paramReceivers[i], params[i]).Some?
  }

  function Decoded(h: Handler, params: seq<Value>, decode: (GoType, Value) -> Option<Value>): (vals: seq<Value>)
    requires Decodes(h, params, decode)
    ensures |vals| == |params|
    ensures forall i :: 0 <= i < |params| ==> decode(h.paramReceivers[i], params[i]) == Some(vals[i])
  {
    seq<Value>(|params|, i requires 0 <= i < |params| => decode(h.paramReceivers[i], params[i]).value)
  }

  /** The arguments of a call: receiver, context if the method takes one, then the values. */
  function ArgsOf(hasCtx: nat, vals: seq<Value>): (args: seq<Arg>)
    ensures hasCtx <= 1 ==> |args| == 1 + hasCtx + |vals|
    ensures hasCtx <= 1 ==> args[0] == Receiver && (hasCtx == 1 ==> args[1] == Ctx)
    ensures hasCtx <= 1 ==> forall i :: 0 <= i < |vals| ==> args[1 + hasCtx + i] == Val(vals[i])
  {
    [Receiver] + (if hasCtx == 1 then [Ctx] else []) +
    seq<Arg>(|vals|, i requires 0 <= i < |vals| => Val(vals[i]))
  }

  ghost predicate RightArgs(args: seq<Arg>, h: Handler, params: seq<Value>, decode: (GoType, Value) -> Option<Value>) {
    Decodes(h, params, decode) && args == ArgsOf(h.hasCtx, Decoded(h, params, decode))
  }

  /** The method is registered and takes as many parameters as the request has. */
  predicate Accepted(handlers: map<string, Handler>, req: Request) {
    req.name in handlers && |req.params| == handlers[req.name].nParams
  }

  /** The call's context outlives it: an accepted request for a streaming method. */
  predicate Keeps(handlers: map<string, Handler>, req: Request) {
    Accepted(handlers, req) && OutChannel(handlers[req.name])
  }

  /** The method is reached. `chOut` says whether the transport can stream. */
  ghost predicate Callable(svc: Service, chOut: bool, req: Request) {
    && Accepted(svc.handlers, req)
    && (chOut || !Keeps(svc.handlers, req))
    && Decodes(svc.handlers[req.name], req.params, svc.decode)
  }

  ghost predicate HasCode(d: Draft, code: int) {
    d.error.Some? && d.error.value.code == code
  }

  /** What an answer to `req` must be, whatever path produced it: the method is called exactly
      when it can be, on the request's own decoded parameters; the result and error it returns
      are the response's, and each dispatch error has its one cause. */
  ghost predicate RightDraft(svc: Service, chOut: bool, req: Request, call: Option<Invocation>, d: Draft) {
    && (call.Some? <==> Callable(svc, chOut, req))
    && (call.Some? ==> RightArgs(call.value.args, svc.handlers[req.name], req.params, svc.decode))
    && (call.Some? && call.value.result.Returned? ==> d == DraftOf(svc.handlers[req.name], call.value.result))
    && (HasCode(d, METHOD_NOT_FOUND) <==>
          req.name !in svc.handlers || (Keeps(svc.handlers, req) && !chOut))
    && (HasCode(d, INVALID_PARAMS) <==> req.name in svc.handlers && !Accepted(svc.handlers, req))
    && (HasCode(d, PARSE_ERROR) <==>
          Accepted(svc.handlers, req) && (chOut || !Keeps(svc.handlers, req)) && call.None?)
    && (HasCode(d, CALL_FAILED) <==> call.Some? && call.value.result.Panicked?)
    && (!d.result.Nil? ==> call.Some? && call.value.result.Returned? && d.result == call.value.result.value)
  }

  /** An accepted call of a method whose value is a channel. */
  ghost predicate StreamingCall(handlers: map<string, Handler>, req: Request) {
    && req.name in handlers && |req.params| == |handlers[req.name].paramReceivers|
    && handlers[req.name].typ.outs != [] && handlers[req.name].typ.outs[0] == ChanType
  }

  lemma KeepsExactly(handlers: map<string, Handler>, req: Request)
    requires HandlersOk(handlers)
    ensures Keeps(handlers, req) <==> StreamingCall(handlers, req)
  {
    if req.name in handlers {
      ghost var typ :| Fits(handlers[req.name], typ);
    }
  }

  /** What a response tells of what the method returned: its value, with a channel exchanged
      for the channel's id, and its error under code 1 with its text. */
  ghost predicate Tells(h: Handler, result: Result, chan: Option<ChanId>, r: Response)
    requires result.Returned?
  {
    && (h.valOut == -1 || result.value.Nil? ==> r.result.None?)
    && (h.valOut != -1 && result.value.Plain? ==> r.result == Some(result.value.v))
    && (h.valOut != -1 && result.value.Chan? ==> chan.Some? && r.result == Some(Number(chan.value)))
    && (r.error.Some? <==> h.errOut != -1 && result.error.Some?)
    && (r.error.Some? ==> r.error.value.code == 1 && Some(r.error.value.message) == result.error)
  }

  ghost predicate Reason(r: Response, code: int) {
    r.error.Some? && r.error.value.code == code
  }

  /** What the response to `req` must be: it bears the request's id, tells what the method
      returned, and is otherwise an error with no result: -32601 for an unknown method or one
      that cannot stream here, -32602 for a wrong number of parameters, -32700 for parameters
      that do not decode, and 0 for a method that panicked. */
  ghost predicate RightResponse(svc: Service, chOut: bool, req: Request, call: Option<Invocation>,
                                chan: Option<ChanId>, r: Response) {
    && r.id == req.id
    && (call.Some? <==> Callable(svc, chOut, req))
    && (call.Some? && call.value.result.Returned? ==>
          Tells(svc.handlers[req.name], call.value.result, chan, r))
    && (call.None? || call.value.result.Panicked? ==> r.result.None? && r.error.Some?)
    && (Reason(r, -32601) <==> req.name !in svc.handlers || (Keeps(svc.handlers, req) && !chOut))
    && (Reason(r, -32602) <==> req.name in svc.handlers && |req.params| != svc.handlers[req.name].nParams)
    && (Reason(r, -32700) <==>
          && req.name in svc.handlers && |req.params| == svc.handlers[req.name].nParams
          && (chOut || !Keeps(svc.handlers, req)) && !Decodes(svc.handlers[req.name], req.params, svc.decode))
    && (Reason(r, 0) <==> call.Some? && call.value.result.Panicked?)
  }

  /** A right draft makes a right response once its channel, if it has one, has an id. */
  lemma DraftToResponse(svc: Service, chOut: bool, req: Request, call: Option<Invocation>, d: Draft,
                        chan: Option<ChanId>)
    requires RightDraft(svc, chOut, req, call, d) && (d.result.Chan? ==> chan.Some?)
    ensures RightResponse(svc, chOut, req, call, chan, Respond(req.id, d, chan))
  {
    hide RightArgs;
  }

  /** What `handle` does to the outside, in order. */
  datatype Effect = Wrote(response: Response) | EncodeFailed | CalledDone(keepCtx: bool)

  function Attempts(trace: seq<Effect>): nat {
    if trace == [] then 0 else Attempts(trace[..|trace| - 1]) + if trace[|trace| - 1].CalledDone? then 0 else 1
  }

  function Dones(trace: seq<Effect>): nat {
    if trace == [] then 0 else Dones(trace[..|trace| - 1]) + if trace[|trace| - 1].CalledDone? then 1 else 0
  }

  lemma CountSnoc(trace: seq<Effect>, e: Effect)
    ensures Attempts(trace + [e]) == Attempts(trace) + if e.CalledDone? then 0 else 1
    ensures Dones(trace + [e]) == Dones(trace) + if e.CalledDone? then 1 else 0
  {
    assert (trace + [e])[..|trace|] == trace;
  }

  /** The two callbacks a call is handled with. */
  class Transport {
    var trace: seq<Effect>
    const chOut: bool
    const encodes: Response -> bool

    constructor (chOut: bool, encodes: Response -> bool)
      ensures trace == [] && this.chOut == chOut && this.encodes == encodes
    {
      trace, this.chOut, this.encodes := [], chOut, encodes;
    }

    /** The writer callback with a response to encode. */
    method Write(r: Response)
      modifies `trace
      ensures trace == old(trace) + [if encodes(r) then Wrote(r) else EncodeFailed]
    {
      trace := trace + [if encodes(r) then Wrote(r) else EncodeFailed];
    }

    method Done(keepCtx: bool)
      modifies `trace
      ensures trace == old(trace) + [CalledDone(keepCtx)]
    {
      trace := trace + [CalledDone(keepCtx)];
    }
  }

  /** Fills callParams slot by slot; a slot never written would be an invalid reflect value,
      written `None` here. */
  method FillParams(h: Handler, params: seq<Value>, decode: (GoType, Value) -> Option<Value>)
    returns (args: seq<Arg>, ok: bool)
    requires h.hasCtx <= 1 && |params| == h.nParams == |h.paramReceivers|
    ensures ok <==> Decodes(h, params, decode)
    ensures ok ==> RightArgs(args, h, params, decode)
  {
    var slots := new Option<Arg>[1 + h.hasCtx + h.nParams](_ => None);
    slots[0] := Some(Receiver);
    if h.hasCtx == 1 {
      slots[1] := Some(Ctx);
    }
    args, ok := [], true;
    for i := 0 to h.nParams
      invariant slots[0] == Some(Receiver) && (h.hasCtx == 1 ==> slots[1] == Some(Ctx))
      invariant forall k :: 0 <= k < i ==>
        var d := decode(h.paramReceivers[k], params[k]);
        d.Some? && slots[1 + h.hasCtx + k] == Some(Val(d.value))
    {
      var d := decode(h.paramReceivers[i], params[i]);
      if d.None? {
        ok := false;
        return;
      }
      slots[i + 1 + h.hasCtx] := Some(Val(d.value));
    }
    forall k | 0 <= k < slots.Length ensures slots[k].Some? {
      if k > h.hasCtx {
        var i := k - 1 - h.hasCtx;
        assert decode(h.paramReceivers[i], params[i]).Some?;
      }
    }
    args := Unwrap(slots[..]);
    FilledRight(h, params, decode, args);
  }

  lemma FilledRight(h: Handler, params: seq<Value>, decode: (GoType, Value) -> Option<Value>, args: seq<Arg>)
    requires h.hasCtx <= 1 && Decodes(h, params, decode) && |args| == 1 + h.hasCtx + |params|
    requires args[0] == Receiver && (h.hasCtx == 1 ==> args[1] == Ctx)
    requires forall k :: 0 <= k < |params| ==>
      var d := decode(h.paramReceivers[k], params[k]);
      d.Some? && args[1 + h.hasCtx + k] == Val(d.value)
    ensures RightArgs(args, h, params, decode)
  {
    ghost var right := ArgsOf(h.hasCtx, Decoded(h, params, decode));
    forall k | 0 <= k < |right| ensures args[k] == right[k] {
      if k > h.hasCtx {
        var i := k - 1 - h.hasCtx;
        assert decode(h.paramReceivers[i], params[i]).Some?;
      }
    }
  }

  /** Every slot is filled. */
  function Unwrap(slots: seq<Option<Arg>>): (args: seq<Arg>)
    requires forall k :: 0 <= k < |slots| ==> slots[k].Some?
    ensures |args| == |slots| && forall k :: 0 <= k < |slots| ==> slots[k] == Some(args[k])
  {
    seq<Arg>(|slots|, k requires 0 <= k < |slots| => slots[k].value)
  }

  /** The draft once the method is back. */
  function Conclude(svc: Service, req: Request, r: Result): Draft
    requires req.name in svc.handlers
  {
    if r.Panicked? then Failure(CALL_FAILED) else DraftOf(svc.handlers[req.name], r)
  }

  lemma ConcludeRight(svc: Service, chOut: bool, req: Request, args: seq<Arg>, r: Result)
    requires Callable(svc, chOut, req) && RightArgs(args, svc.handlers[req.name], req.params, svc.decode)
    ensures RightDraft(svc, chOut, req, Some(Invocation(args, r)), Conclude(svc, req, r))
  {
  }

  /** Each refusal is right where it happens. */
  lemma RefusalRight(svc: Service, chOut: bool, req: Request)
    ensures req.name !in svc.handlers || (Keeps(svc.handlers, req) && !chOut) ==>
      RightDraft(svc, chOut, req, None, Failure(METHOD_NOT_FOUND))
    ensures req.name in svc.handlers && !Accepted(svc.handlers, req) ==>
      RightDraft(svc, chOut, req, None, Failure(INVALID_PARAMS))
    ensures Accepted(svc.handlers, req) && (chOut || !Keeps(svc.handlers, req)) && !Callable(svc, chOut, req) ==>
      RightDraft(svc, chOut, req, None, Failure(PARSE_ERROR))
  {
  }

  /** One call frame from lookup to the end of the function's body, deferred calls excluded:
      they are returned, for the exit to run. On every path a response is attempted once, and
      `done` has been called or is deferred, once. */
  method Body(out: Transport, svc: Service, req: Request, invoke: (string, seq<Arg>) -> Result, chanId: ChanId)
    returns (deferred: seq<bool>, ghost call: Option<Invocation>, ghost d: Draft)
    requires HandlersOk(svc.handlers)
    modifies out`trace
    ensures RightDraft(svc, out.chOut, req, call, d)
    ensures call.Some? ==> call.value.result == invoke(req.name, call.value.args)
    ensures out.chOut ==> TakesSteps(svc, req, call, d, deferred)
    ensures old(out.trace) <= out.trace
    ensures var added := out.trace[|old(out.trace)|..];
      && |added| >= 1 && added[0] == Attempt(out.encodes, req.id, d, chanId)
      && Attempts(added) == 1
      && Dones(added) + |deferred| == 1
      && (if deferred == [] then added[1..] == [CalledDone(false)] && !Keeps(svc.handlers, req)
          else deferred == [Keeps(svc.handlers, req)])
  {
    hide Attempts, Dones, Decodes, RightArgs, RightDraft, Respond;
    RefusalRight(svc, out.chOut, req);
    deferred, call := [], None;
    ghost var before := out.trace;
    if req.name !in svc.handlers {
      d := Failure(METHOD_NOT_FOUND);
      RpcError(out, req.id, METHOD_NOT_FOUND, chanId);
      out.Done(false);
      TwoEffects(before, out.trace, Attempt(out.encodes, req.id, d, chanId), CalledDone(false));
      return;
    }
    var h := svc.handlers[req.name];
    ghost var typ :| Fits(h, typ);
    if |req.params| != h.nParams {
      d := Failure(INVALID_PARAMS);
      RpcError(out, req.id, INVALID_PARAMS, chanId);
      out.Done(false);
      TwoEffects(before, out.trace, Attempt(out.encodes, req.id, d, chanId), CalledDone(false));
      return;
    }
    var outChannel := OutChannel(h);
    deferred := deferred + [outChannel];
    if !out.chOut && outChannel {
      d := Failure(METHOD_NOT_FOUND);
      RpcError(out, req.id, METHOD_NOT_FOUND, chanId);
      OneEffect(before, out.trace, Attempt(out.encodes, req.id, d, chanId));
      return;
    }
    var args, ok := FillParams(h, req.params, svc.decode);
    if !ok {
      d := Failure(PARSE_ERROR);
      RpcError(out, req.id, PARSE_ERROR, chanId);
      OneEffect(before, out.trace, Attempt(out.encodes, req.id, d, chanId));
      return;
    }
    var result := invoke(req.name, args);
    call := Some(Invocation(args, result));
    ConcludeRight(svc, out.chOut, req, args, result);
    if result.Panicked? {
      d := Failure(CALL_FAILED);
      RpcError(out, req.id, CALL_FAILED, chanId);
      OneEffect(before, out.trace, Attempt(out.encodes, req.id, d, chanId));
      return;
    }
    var draft := Draft(Nil, None);
    if h.errOut != -1 {
      if result.error.Some? {
        draft := draft.(error := Some(RespError(1, result.error.value)));
      }
    }
    if h.valOut != -1 {
      draft := draft.(result := result.value);
    }
    d := draft;
    out.Write(Respond(req.id, draft, Some(chanId)));
    OneEffect(before, out.trace, Attempt(out.encodes, req.id, d, chanId));
  }

  /** rpcError: an error response through the writer. */
  method RpcError(out: Transport, id: Id, code: int, chanId: ChanId)
    modifies out`trace
    ensures out.trace == old(out.trace) + [Attempt(out.encodes, id, Failure(code), chanId)]
  {
    out.Write(Response(id, None, Some(RespError(code, ""))));
  }

  /** Writing the response to `id`, whether or not it can be encoded. */
  function Attempt(encodes: Response -> bool, id: Id, d: Draft, chanId: ChanId): Effect {
    var r := Respond(id, d, Some(chanId));
    if encodes(r) then Wrote(r) else EncodeFailed
  }

  lemma OneEffect(before: seq<Effect>, after: seq<Effect>, a: Effect)
    requires after == before + [a] && !a.CalledDone?
    ensures after[|before|..] == [a] && Attempts([a]) == 1 && Dones([a]) == 0
  {
    CountSnoc([], a);
    assert [] + [a] == [a];
  }

  lemma TwoEffects(before: seq<Effect>, after: seq<Effect>, a: Effect, b: Effect)
    requires after == before + [a] + [b] && !a.CalledDone? && b.CalledDone?
    ensures after[|before|..] == [a, b] && Attempts([a, b]) == 1 && Dones([a, b]) == 1
  {
    CountSnoc([], a);
    CountSnoc([a], b);
    assert [] + [a] == [a] && [a] + [b] == [a, b];
  }

  /** The whole of `handle`: the body, then its deferred calls, last first. Every path attempts
      exactly one response and then calls `done` exactly once; the response is the right one
      for the request, and the context is kept exactly for an accepted streaming call. */
  method Handle(out: Transport, svc: Service, req: Request, invoke: (string, seq<Arg>) -> Result, chanId: ChanId)
    returns (ghost call: Option<Invocation>, ghost d: Draft)
    requires HandlersOk(svc.handlers)
    modifies out`trace
    ensures RightDraft(svc, out.chOut, req, call, d)
    ensures call.Some? ==> call.value.result == invoke(req.name, call.value.args)
    ensures old(out.trace) <= out.trace
    ensures var added := out.trace[|old(out.trace)|..];
      && Attempts(added) == 1 && Dones(added) == 1
      && !added[0].CalledDone? && added[|added| - 1].CalledDone?
      && (forall r :: Wrote(r) in added ==> RightResponse(svc, out.chOut, req, call, Some(chanId), r))
      && (forall k :: CalledDone(k) in added ==> k == StreamingCall(svc.handlers, req))
  {
    hide Attempts, Dones, RightDraft, RightResponse, Keeps, StreamingCall, Respond;
    KeepsExactly(svc.handlers, req);
    ghost var before := out.trace;
    var deferred: seq<bool>;
    deferred, call, d := Body(out, svc, req, invoke, chanId);
    ghost var body := out.trace[|before|..];
    ghost var owed := deferred;
    while |deferred| > 0
      invariant deferred == owed || (|owed| == 1 && deferred == [])
      invariant out.trace == before + body + if deferred == owed then [] else [CalledDone(owed[0])]
      invariant before <= out.trace
      decreases |deferred|
    {
      var last := deferred[|deferred| - 1];
      deferred := deferred[..|deferred| - 1];
      out.Done(last);
    }
    assert out.trace[|before|..] == body + if owed == [] then [] else [CalledDone(owed[0])];
    AfterExit(body, owed, Keeps(svc.handlers, req));
    DraftToResponse(svc, out.chOut, req, call, d, Some(chanId));
  }

  /** The effects of a body followed by what it deferred. */
  lemma AfterExit(body: seq<Effect>, owed: seq<bool>, keeps: bool)
    requires |body| >= 1 && !body[0].CalledDone? && Attempts(body) == 1 && Dones(body) + |owed| == 1
    requires if owed == [] then body[1..] == [CalledDone(false)] && !keeps else owed == [keeps]
    ensures var all := body + if owed == [] then [] else [CalledDone(owed[0])];
      all == [body[0], CalledDone(keeps)] && Attempts(all) == 1 && Dones(all) == 1
  {
    hide Attempts, Dones;
    OnlyAttempt(body);
    assert body == [body[0]] + body[1..];
    if owed == [] {
      assert body + [] == body;
    } else {
      CountSnoc(body, CalledDone(owed[0]));
    }
  }

  /** One attempt and no `done` is a single effect. */
  lemma {:induction false} OnlyAttempt(trace: seq<Effect>)
    ensures Attempts(trace) + Dones(trace) == |trace|
    decreases |trace|
  {
    if trace != [] { OnlyAttempt(trace[..|trace| - 1]); }
  }

  // ------------------------------------------------ handling in separate steps

  /** How a call begins over a transport that streams: it is refused, by an early return or
      after `done` was deferred, or its method is invoked. */
  datatype Begun = Refused(draft: Draft, early: bool) | Invoking(args: seq<Arg>)

  function Begin(svc: Service, req: Request): Begun {
    if req.name !in svc.handlers then Refused(Failure(METHOD_NOT_FOUND), true)
    else if |req.params| != svc.handlers[req.name].nParams then Refused(Failure(INVALID_PARAMS), true)
    else
      var h := svc.handlers[req.name];
      if !Decodes(h, req.params, svc.decode) then Refused(Failure(PARSE_ERROR), false)
      else Invoking(ArgsOf(h.hasCtx, Decoded(h, req.params, svc.decode)))
  }

  /** A call was handled in the steps of `Begin` and `Conclude`: the same refusal and the same
      way out, or the same arguments and what the method's result makes of the response. */
  ghost predicate TakesSteps(svc: Service, req: Request, call: Option<Invocation>, d: Draft, deferred: seq<bool>) {
    match Begin(svc, req)
    case Refused(draft, early) => call.None? && d == draft && (deferred == [] <==> early)
    case Invoking(args) =>
      call.Some? && call.value.args == args && d == Conclude(svc, req, call.value.result) && deferred != []
  }

  lemma BeginRight(svc: Service, req: Request)
    ensures var b := Begin(svc, req);
      && (b.Refused? ==> RightDraft(svc, true, req, None, b.draft) && b.draft.result.Nil?)
      && (b.Refused? ==> (b.early <==> !Accepted(svc.handlers, req)))
      && (b.Invoking? ==> Callable(svc, true, req))
      && (b.Invoking? ==> RightArgs(b.args, svc.handlers[req.name], req.params, svc.decode))
  {
  }

  // ------------------------------------------------------- client and server

  /** The client's view of a method: the same types without the receiver. */
  function ClientHasCtx(ins: seq<GoType>): nat {
    if |ins| > 0 && ins[0] == ContextType then 1 else 0
  }

  /** handleRpcCall marshals every argument after the context. */
  function Marshalled(args: seq<Value>, hasCtx: nat, marshal: Value -> Value): (params: seq<Value>)
    requires hasCtx <= |args|
    ensures |params| == |args| - hasCtx
  {
    seq<Value>(|args| - hasCtx, i requires 0 <= i < |args| - hasCtx => marshal(args[i + hasCtx]))
  }

  /** Arguments arrive in place: when client and server agree on the method's types and each
      argument survives the JSON round trip, the parameter count matches, decoding succeeds,
      and what the server's call gets is the client's non-context arguments in order. */
  lemma ArgumentsArrive(h: Handler, ins: seq<GoType>, outs: seq<GoType>, receiver: GoType, args: seq<Value>,
                        marshal: Value -> Value, decode: (GoType, Value) -> Option<Value>)
    requires Fits(h, FuncType([receiver] + ins, outs))
    requires |args| == |ins|
    requires forall i :: ClientHasCtx(ins) <= i < |args| ==> decode(ins[i], marshal(args[i])) == Some(args[i])
    ensures h.hasCtx == ClientHasCtx(ins) <= |args|
    ensures var params := Marshalled(args, ClientHasCtx(ins), marshal);
      && |params| == h.nParams == |h.paramReceivers|
      && Decodes(h, params, decode)
      && Decoded(h, params, decode) == args[h.hasCtx..]
      && forall call :: RightArgs(call, h, params, decode) ==> call == ArgsOf(h.hasCtx, args[h.hasCtx..])
  {
    var c := ClientHasCtx(ins);
    assert HasCtx(FuncType([receiver] + ins, outs)) == c;
    assert ([receiver] + ins)[1 + c..] == ins[c..];
    var params := Marshalled(args, c, marshal);
    forall i | 0 <= i < |params| ensures decode(h.paramReceivers[i], params[i]) == Some(args[c..][i]) {
      assert params[i] == marshal(args[i + c]);
    }
    assert Decodes(h, params, decode);
    assert Decoded(h, params, decode) == args[c..];
  }

  /** An exported name starts with a capital letter, of any script, and has no dot. A
      qualified name of an exported method never collides with the connection's built-in
      names, nor with the empty name of a response, so its frame is taken as a call. */
  lemma QualifiedIsCall(namespace: string, name: string)
    requires name != [] && !('a' <= name[0] <= 'z') && '.' !in name
    ensures CallName(namespace + "." + name)
    ensures var q := namespace + "." + name;
      q != "" && q != "xrpc.cancel" && q != "xrpc.ch.val" && q != "xrpc.ch.close"
  {
    var q, n := namespace + "." + name, |namespace|;
    assert q[n] == '.' && q[n + 1] == name[0];
    assert forall i :: n < i < |q| ==> q[i] == name[i - n - 1];
    assert WS_CANCEL[4] == '.' && CH_VALUE[7] == '.' && CH_CLOSE[7] == '.';
  }
}
