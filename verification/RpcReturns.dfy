/** The client's end of a call: from the reply a caller returns with to the outputs of the client
    method it called. */
module RpcReturns {
  import opened Words
  import opened RpcMessages
  import opened RpcSystem
  import opened RpcTheorems
  import C = RpcClient
  import D = Dispatch
  import Mux = OutChanMux

  /** An output of a client method: never set, the zero value of its type, a value, a channel fed
      from the connection, or an error, which may be nil. */
  datatype Output = Unset | Zero | Val(v: Value) | Stream | Err(error: Option<RespError>)

  /** The value a reply's result gives for an output of this type; `None` when it does not
      unmarshal. A channel is made when the response comes in. */
  function ValueOutput(typ: D.GoType, decode: (D.GoType, Value) -> Option<Value>, result: Option<Value>)
    : Option<Output>
  {
    if result.None? then Some(Zero)
    else if typ == D.ChanType then Some(Stream)
    else
      var d := decode(typ, result.value);
      if d.None? then None else Some(Val(d.value))
  }

  /** handleRpcCall after the reply, with processResponse and processError: the outputs are filled
      by position. */
  method ProcessReply(outs: seq<D.GoType>, decode: (D.GoType, Value) -> Option<Value>, result: Option<Value>,
                      error: Option<RespError>)
    returns (outputs: seq<Output>)
    requires D.Supported(outs)
    ensures outputs == Outputs(outs, decode, result, error)
  {
    var pos := D.FuncOut(outs).value;
    var valOut, errOut := pos.0, pos.1;
    var out := new Output[|outs|](_ => Unset);
    var rval := Some(Zero);
    if valOut != -1 {
      rval := ValueOutput(outs[valOut], decode, result);
      out[valOut] := if rval.Some? then rval.value else Zero;
    }
    if errOut != -1 {
      out[errOut] := Err(if rval.Some? then error else None);
    }
    outputs := out[..];
  }

  /** The outputs by position. */
  function Outputs(outs: seq<D.GoType>, decode: (D.GoType, Value) -> Option<Value>, result: Option<Value>,
                   error: Option<RespError>): (outputs: seq<Output>)
    requires D.Supported(outs)
    ensures |outputs| == |outs|
  {
    var value := if D.ReturnsValue(outs) then ValueOutput(outs[0], decode, result) else Some(Zero);
    (if D.ReturnsValue(outs) then [if value.Some? then value.value else Zero] else []) +
    (if D.ReportsError(outs) then [Err(if value.Some? then error else None)] else [])
  }

  /** A result that unmarshals at the client. */
  ghost predicate Readable(outs: seq<D.GoType>, decode: (D.GoType, Value) -> Option<Value>, result: Option<Value>) {
    D.ReturnsValue(outs) && outs[0] != D.ChanType && result.Some? ==> decode(outs[0], result.value).Some?
  }

  /** The outputs are what the method returned: its value, or a channel for its channel, and its
      error with its text. */
  ghost predicate Delivers(outs: seq<D.GoType>, decode: (D.GoType, Value) -> Option<Value>, result: D.Result,
                           outputs: seq<Output>)
    requires result.Returned? && |outputs| == |outs|
  {
    && (D.ReturnsValue(outs) && result.value.Nil? ==> outputs[0] == Zero)
    && (D.ReturnsValue(outs) && result.value.Plain? && outs[0] != D.ChanType ==>
          outputs[0].Val? && decode(outs[0], result.value.v) == Some(outputs[0].v))
    && (D.ReturnsValue(outs) && result.value.Chan? && outs[0] == D.ChanType ==> outputs[0] == Stream)
    && (D.ReportsError(outs) ==>
          && outputs[|outs| - 1].Err?
          && var e := outputs[|outs| - 1].error;
          && (e.None? <==> result.error.None?)
          && (e.Some? ==> e.value.code == 1 && result.error == Some(e.value.message)))
  }

  /** A result that does not unmarshal costs the caller the value, and the error as well. */
  ghost predicate Lost(outs: seq<D.GoType>, outputs: seq<Output>)
    requires |outputs| == |outs|
  {
    && (D.ReturnsValue(outs) ==> outputs[0] == Zero)
    && (D.ReportsError(outs) ==> outputs[|outs| - 1] == Err(None))
  }

  /** A failed call: no value, and an error with this code if the method reports errors. */
  ghost predicate Fails(outs: seq<D.GoType>, code: int, outputs: seq<Output>)
    requires |outputs| == |outs|
  {
    && (D.ReturnsValue(outs) ==> outputs[0] == Zero)
    && (D.ReportsError(outs) ==>
          var o := outputs[|outs| - 1]; o.Err? && o.error.Some? && o.error.value.code == code)
  }

  /** The client and the server agree on the outputs of the method behind this call. */
  ghost predicate Agreed(svc: D.Service, c: C.Client, id: Id, outs: seq<D.GoType>) {
    && id in c.calls && c.calls[id].name in svc.handlers
    && (c.calls[id].sink <==> outs != [] && outs[0] == D.ChanType)
    && exists ins :: D.Fits(svc.handlers[c.calls[id].name], D.FuncType(ins, outs))
  }

  /** The method behind a call could do this on the decoded parameters of the call. */
  ghost predicate CouldReturn(svc: D.Service, c: C.Client, id: Id, result: D.Result)
    requires id in c.calls && c.calls[id].name in svc.handlers
  {
    var h, params := svc.handlers[c.calls[id].name], c.calls[id].params;
    && D.Decodes(h, params, svc.decode)
    && svc.behaves(c.calls[id].name, D.ArgsOf(h.hasCtx, D.Decoded(h, params, svc.decode)), result)
  }

  lemma TellsDelivers(h: D.Handler, ins: seq<D.GoType>, outs: seq<D.GoType>,
                      decode: (D.GoType, Value) -> Option<Value>, result: D.Result, chan: Option<ChanId>, r: D.Response)
    requires D.Fits(h, D.FuncType(ins, outs)) && result.Returned? && D.Tells(h, result, chan, r)
    ensures var outputs := Outputs(outs, decode, r.result, r.error);
      if Readable(outs, decode, r.result) then Delivers(outs, decode, result, outputs) else Lost(outs, outputs)
  {
  }

  /** An error reaches the caller exactly when the method returned one and its value unmarshals. */
  lemma ErrorArrivesExactly(h: D.Handler, ins: seq<D.GoType>, outs: seq<D.GoType>,
                            decode: (D.GoType, Value) -> Option<Value>, result: D.Result, chan: Option<ChanId>,
                            r: D.Response)
    requires D.Fits(h, D.FuncType(ins, outs)) && result.Returned? && D.Tells(h, result, chan, r)
    requires D.ReportsError(outs)
    ensures var outputs := Outputs(outs, decode, r.result, r.error);
      && outputs[|outs| - 1].Err?
      && (outputs[|outs| - 1].error.Some? <==> result.error.Some? && Readable(outs, decode, r.result))
  {
    TellsDelivers(h, ins, outs, decode, result, chan, r);
  }

  /** A value that does not unmarshal, and an error: the caller gets a zero value and no error. */
  lemma UnreadableValueLosesError()
    ensures var outs := [D.Other("int"), D.ErrorType];
      var nothing := (typ: D.GoType, v: Value) => None;
      Outputs(outs, nothing, Some(Json("text")), Some(RespError(1, "failed"))) == [Zero, Err(None)]
  {
  }

  lemma FailureFails(outs: seq<D.GoType>, decode: (D.GoType, Value) -> Option<Value>, r: C.Reply, code: int)
    requires D.Supported(outs) && r.Answer? && r.result.None? && r.error.Some? && r.error.value.code == code
    ensures Fails(outs, code, Outputs(outs, decode, r.result, r.error))
  {
  }

  /** What a caller's outputs say when its method did this. */
  ghost predicate Conveys(outs: seq<D.GoType>, decode: (D.GoType, Value) -> Option<Value>, result: D.Result,
                          reply: Option<Value>, outputs: seq<Output>)
    requires |outputs| == |outs|
  {
    if result.Panicked? then Fails(outs, 0, outputs)
    else if Readable(outs, decode, reply) then Delivers(outs, decode, result, outputs)
    else Lost(outs, outputs)
  }

  /** A remote call is the call: in every interleaving, the outputs of a client method whose
      types agree with the server's are the value and the error that its own method returned on
      its own decoded parameters; a refused or panicking call leaves no value and an error with
      its code. The one loss is a value that does not unmarshal, which takes the error along. */
  lemma CallerGetsResults(svc: D.Service, events: seq<SysEvent>, id: Id, outs: seq<D.GoType>)
    requires SysRun(svc, START_STATE, events).Some?
    requires var c := SysRun(svc, START_STATE, events).value.client;
      && id in c.returned && c.returned[id].Got? && c.returned[id].reply.Answer?
      && Agreed(svc, c, id, outs)
    ensures var c := SysRun(svc, START_STATE, events).value.client;
      var h, params, r := svc.handlers[c.calls[id].name], c.calls[id].params, c.returned[id].reply;
      var outputs := Outputs(outs, svc.decode, r.result, r.error);
      && (|params| != h.nParams ==> Fails(outs, -32602, outputs))
      && (|params| == h.nParams && !D.Decodes(h, params, svc.decode) ==> Fails(outs, -32700, outputs))
      && (|params| == h.nParams && D.Decodes(h, params, svc.decode) ==>
            exists result :: CouldReturn(svc, c, id, result) && Conveys(outs, svc.decode, result, r.result, outputs))
  {
    hide SysRun, D.Decodes, D.Fits, Fails, Outputs, Conveys, FromMethod, D.ArgsOf;
    OwnResult(svc, events, id);
    CallMatching(svc, events, id);
    var s := SysRun(svc, START_STATE, events).value;
    var c := s.client;
    var h, params, r := svc.handlers[c.calls[id].name], c.calls[id].params, c.returned[id].reply;
    ghost var ins :| D.Fits(h, D.FuncType(ins, outs));
    SupportedFits(h, ins, outs);
    ErrorHasNoResult(svc, s, id, r);
    if |params| != h.nParams {
      FailureFails(outs, svc.decode, r, -32602);
    } else if !D.Decodes(h, params, svc.decode) {
      FailureFails(outs, svc.decode, r, -32700);
    } else {
      var args := D.ArgsOf(h.hasCtx, D.Decoded(h, params, svc.decode));
      assert FromMethod(svc, s.mux.regs, c.calls[id].name, args, id, r);
      MethodConveys(svc, s.mux.regs, c.calls[id].name, args, id, r, ins, outs);
    }
  }

  lemma SupportedFits(h: D.Handler, ins: seq<D.GoType>, outs: seq<D.GoType>)
    requires D.Fits(h, D.FuncType(ins, outs))
    ensures D.Supported(outs)
  {
  }

  /** A dispatch error comes without a result. */
  lemma ErrorHasNoResult(svc: D.Service, s: System, id: Id, r: C.Reply)
    requires r.Answer? && id in s.client.calls
    requires exists t :: 0 <= t < |s.tasks| && Answers(s.tasks[t], id, s.client.calls[id], r)
                         && Truthful(svc, s.tasks[t], ReplyAsResponse(r))
    ensures r.error.Some? && (r.error.value.code == -32602 || r.error.value.code == -32700) ==> r.result.None?
  {
  }

  lemma MethodConveys(svc: D.Service, regs: map<ChanId, Mux.Chan>, name: string, args: seq<D.Arg>, id: Id, r: C.Reply,
                      ins: seq<D.GoType>, outs: seq<D.GoType>)
    requires name in svc.handlers && D.Fits(svc.handlers[name], D.FuncType(ins, outs)) && D.Supported(outs)
    requires r.Answer? && FromMethod(svc, regs, name, args, id, r)
    ensures exists result :: svc.behaves(name, args, result) &&
              Conveys(outs, svc.decode, result, r.result, Outputs(outs, svc.decode, r.result, r.error))
  {
    hide D.Fits, Outputs, Fails, Delivers, Lost, Readable, D.Tells;
    var result, chan :| svc.behaves(name, args, result) && Reports(regs, svc.handlers[name], result, chan, id, r);
    if result.Panicked? {
      FailureFails(outs, svc.decode, r, 0);
    } else {
      TellsDelivers(svc.handlers[name], ins, outs, svc.decode, result, chan, D.Response(id, r.result, r.error));
    }
  }
}
