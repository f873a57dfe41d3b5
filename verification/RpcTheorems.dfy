/** What the composed system promises in every interleaving. */
module RpcTheorems {
  import opened Words
  import opened RpcMessages
  import opened RpcSystem
  import opened RpcTasks
  import opened RpcStreams
  import C = RpcClient
  import D = Dispatch
  import Mux = OutChanMux

  lemma Reached(svc: D.Service, events: seq<SysEvent>)
    requires SysRun(svc, START_STATE, events).Some?
    ensures var s := SysRun(svc, START_STATE, events).value; SysInv(s) && LivesOk(svc, s) && ChannelsOk(s)
  {
    hide SysInv, ChannelsOk;
    ChannelsReached(svc, events);
    StartInv();
    RunLife(svc, START_STATE, events);
  }

  /** One response, then one `done`: in every interleaving, a handler that has returned made
      exactly one attempt to write a response, its own and the right one for its request, and
      then called `done` exactly once; its call stays on record exactly when it streams. */
  lemma OneResponseOneDone(svc: D.Service, events: seq<SysEvent>, t: nat)
    requires SysRun(svc, START_STATE, events).Some?
    requires At(SysRun(svc, START_STATE, events).value, t, Done)
    ensures var s := SysRun(svc, START_STATE, events).value;
      var task := s.tasks[t];
      && D.Attempts(task.trace) == 1 && D.Dones(task.trace) == 1
      && !task.trace[0].CalledDone? && task.trace[|task.trace| - 1].CalledDone?
      && (forall r :: D.Wrote(r) in task.trace ==> Truthful(svc, task, r))
      && (forall k :: D.CalledDone(k) in task.trace ==> k == D.Keeps(svc.handlers, task.req))
      && (task.req.id in s.handling <==> D.Keeps(svc.handlers, task.req))
  {
    hide SysRun, SysInv, ChannelsOk, AnswerRight, Truthful, D.Keeps, ResponseOf;
    Reached(svc, events);
    var s := SysRun(svc, START_STATE, events).value;
    AnswerIsTruthful(svc, s, t);
    var trace := s.tasks[t].trace;
    assert OnRecord(s, s.tasks[t]) && Finished(svc, s.tasks[t]);
    D.TwoEffects([], trace, trace[0], trace[1]);
    assert trace == [trace[0], trace[1]];
  }

  /** Before it returns, a handler is never ahead of itself: it has attempted no response twice
      and called `done` only after the attempt, and what it has not yet done it still owes. */
  lemma NeverTwice(svc: D.Service, events: seq<SysEvent>, t: nat)
    requires SysRun(svc, START_STATE, events).Some?
    requires t < |SysRun(svc, START_STATE, events).value.tasks|
    ensures var task := SysRun(svc, START_STATE, events).value.tasks[t];
      && D.Dones(task.trace) <= D.Attempts(task.trace) <= 1
      && (D.Attempts(task.trace) == 1 <==> Past(task.phase))
      && (task.phase.Running? || D.Dones(task.trace) + |task.deferred| + (if task.owesDone then 1 else 0) == 1)
  {
    hide SysRun, SysInv, ChannelsOk, AnswerRight, D.Keeps, ResponseOf, D.Attempts, D.Dones, D.Callable, D.RightArgs;
    Reached(svc, events);
    var s := SysRun(svc, START_STATE, events).value;
    var trace := s.tasks[t].trace;
    assert LifeOk(svc, s.tasks[t]);
    if |trace| == 2 {
      D.TwoEffects([], trace, trace[0], trace[1]);
      assert trace == [trace[0], trace[1]];
    } else if |trace| == 1 {
      D.OneEffect([], trace, trace[0]);
      assert trace == [trace[0]];
    } else {
      D.OnlyAttempt(trace);
    }
  }

  /** The response is right for the task's request, and the method call behind it, if any, is
      one the method can make. */
  ghost predicate Truthful(svc: D.Service, t: Task, r: D.Response) {
    && D.RightResponse(svc, true, t.req, t.call, t.chan, r)
    && (t.call.Some? ==> svc.behaves(t.req.name, t.call.value.args, t.call.value.result))
  }

  lemma AnswerIsTruthful(svc: D.Service, s: System, t: nat)
    requires SysInv(s) && LivesOk(svc, s) && ChannelsOk(s) && t < |s.tasks| && Past(s.tasks[t].phase)
    ensures AnswerRight(svc, s.tasks[t]) && Truthful(svc, s.tasks[t], ResponseOf(s.tasks[t]))
  {
    hide SysInv, NoticesOf, D.RightDraft, D.RightResponse, D.Respond;
    var task := s.tasks[t];
    assert LifeOk(svc, task) && ChannelOk(s, task);
    D.DraftToResponse(svc, true, task.req, task.call, task.draft.value, task.chan);
  }

  /** `t` ran the request call `id` made, and its response is what that caller got. */
  ghost predicate Answers(t: Task, id: Id, call: C.Call, r: C.Reply) {
    && r.Answer?
    && Past(t.phase)
    && t.req == C.RequestOf(id, call).req
    && RespFrame(t) == Resp(id, r.result, r.error)
    && r.id == id
  }

  /** End-to-end matching: in every interleaving, an answer a caller returned with is the
      unchanged response of a server task whose request is that caller's own id, method and
      parameters, and it is the right answer to that request. */
  lemma CallMatching(svc: D.Service, events: seq<SysEvent>, id: Id)
    requires SysRun(svc, START_STATE, events).Some?
    requires var c := SysRun(svc, START_STATE, events).value.client;
      id in c.returned && c.returned[id].Got? && c.returned[id].reply.Answer?
    ensures var s := SysRun(svc, START_STATE, events).value;
      && id in s.client.calls
      && exists t :: 0 <= t < |s.tasks|
           && Answers(s.tasks[t], id, s.client.calls[id], s.client.returned[id].reply)
           && Truthful(svc, s.tasks[t], ReplyAsResponse(s.client.returned[id].reply))
  {
    hide SysRun, SysInv, ChannelsOk, LivesOk, Answers, AnswerRight, Truthful;
    Reached(svc, events);
    var s := SysRun(svc, START_STATE, events).value;
    MatchingFromInv(s, id);
    var t :| 0 <= t < |s.tasks| && Answers(s.tasks[t], id, s.client.calls[id], s.client.returned[id].reply);
    AnswersIsPast(s.tasks[t], id, s.client.calls[id], s.client.returned[id].reply);
    AnswerIsTruthful(svc, s, t);
  }

  lemma AnswersIsPast(t: Task, id: Id, call: C.Call, r: C.Reply)
    requires Answers(t, id, call, r)
    ensures Past(t.phase) && t.draft.Some? && ResponseOf(t) == ReplyAsResponse(r)
  {
  }

  function ReplyAsResponse(r: C.Reply): D.Response
    requires r.Answer?
  {
    D.Response(r.id, r.result, r.error)
  }

  /** A reply that reports what the method behind `h` did: its panic, under code 0 and without
      a result, or what it returned, a channel by an id registered for that very channel. */
  ghost predicate Reports(regs: map<ChanId, Mux.Chan>, h: D.Handler, result: D.Result, chan: Option<ChanId>,
                          id: Id, r: C.Reply)
    requires r.Answer?
  {
    if result.Panicked? then r.error.Some? && r.error.value.code == 0 && r.result.None?
    else
      && D.Tells(h, result, chan, D.Response(id, r.result, r.error))
      && (h.valOut != -1 && result.value.Chan? ==>
            chan.Some? && chan.value in regs && regs[chan.value] == result.value.ch)
  }

  /** What a method may answer on these arguments: its own results, or code 0 if it panicked. */
  ghost predicate FromMethod(svc: D.Service, regs: map<ChanId, Mux.Chan>, name: string, args: seq<D.Arg>, id: Id,
                             r: C.Reply)
    requires name in svc.handlers && r.Answer?
  {
    exists result, chan :: svc.behaves(name, args, result) && Reports(regs, svc.handlers[name], result, chan, id, r)
  }

  /** A caller gets its own method's result on its own parameters: the answer to a registered
      method, called with the right number of parameters that decode, is one that method can
      give on exactly those decoded parameters; the id in a streaming answer stands for the
      channel the method returned. */
  lemma OwnResult(svc: D.Service, events: seq<SysEvent>, id: Id)
    requires SysRun(svc, START_STATE, events).Some?
    requires var c := SysRun(svc, START_STATE, events).value.client;
      id in c.returned && c.returned[id].Got? && c.returned[id].reply.Answer?
    ensures var c := SysRun(svc, START_STATE, events).value.client;
      var regs := SysRun(svc, START_STATE, events).value.mux.regs;
      var r := c.returned[id].reply;
      && id in c.calls
      && var req := C.RequestOf(id, c.calls[id]).req;
      && (req.name !in svc.handlers ==> r.error.Some? && r.error.value.code == -32601)
      && (req.name in svc.handlers && |req.params| != svc.handlers[req.name].nParams ==>
            r.error.Some? && r.error.value.code == -32602)
      && (req.name in svc.handlers && |req.params| == svc.handlers[req.name].nParams ==>
            var h := svc.handlers[req.name];
            if D.Decodes(h, req.params, svc.decode)
            then FromMethod(svc, regs, req.name, D.ArgsOf(h.hasCtx, D.Decoded(h, req.params, svc.decode)), id, r)
            else r.error.Some? && r.error.value.code == -32700)
  {
    hide SysRun, FromMethod, D.Decodes;
    CallMatching(svc, events, id);
    var s := SysRun(svc, START_STATE, events).value;
    var r := s.client.returned[id].reply;
    var t :| 0 <= t < |s.tasks| && Answers(s.tasks[t], id, s.client.calls[id], r) &&
             Truthful(svc, s.tasks[t], ReplyAsResponse(r));
    var task := s.tasks[t];
    var req := task.req;
    assert req == C.RequestOf(id, s.client.calls[id]).req && req.id == id;
    if req.name in svc.handlers && |req.params| == svc.handlers[req.name].nParams &&
       D.Decodes(svc.handlers[req.name], req.params, svc.decode) {
      assert D.Callable(svc, true, req);
      IdIsOwn(svc, events, t);
      Reached(svc, events);
      AnswerIsTruthful(svc, s, t);
      CalledFromMethod(svc, s, task, r);
    }
  }

  /** From the caller's arguments to the method's results: when client and server agree on the
      method's types and each argument survives the JSON round trip, the answer is one the
      method gives on exactly the caller's arguments. */
  lemma ArgumentsToResult(svc: D.Service, events: seq<SysEvent>, id: Id, receiver: D.GoType, ins: seq<D.GoType>,
                          outs: seq<D.GoType>, args: seq<Value>, marshal: Value -> Value)
    requires SysRun(svc, START_STATE, events).Some?
    requires var c := SysRun(svc, START_STATE, events).value.client;
      && id in c.returned && c.returned[id].Got? && c.returned[id].reply.Answer?
      && id in c.calls && c.calls[id].name in svc.handlers
      && D.Fits(svc.handlers[c.calls[id].name], D.FuncType([receiver] + ins, outs))
      && |args| == |ins|
      && c.calls[id].params == D.Marshalled(args, D.ClientHasCtx(ins), marshal)
    requires forall i :: D.ClientHasCtx(ins) <= i < |args| ==> svc.decode(ins[i], marshal(args[i])) == Some(args[i])
    ensures var s := SysRun(svc, START_STATE, events).value;
      var c := s.client;
      var ctx := D.ClientHasCtx(ins);
      FromMethod(svc, s.mux.regs, c.calls[id].name, D.ArgsOf(ctx, args[ctx..]), id, c.returned[id].reply)
  {
    hide SysRun, FromMethod, D.Decodes, D.Fits;
    var c := SysRun(svc, START_STATE, events).value.client;
    D.ArgumentsArrive(svc.handlers[c.calls[id].name], ins, outs, receiver, args, marshal, svc.decode);
    OwnResult(svc, events, id);
  }

  lemma IdIsOwn(svc: D.Service, events: seq<SysEvent>, t: nat)
    requires SysRun(svc, START_STATE, events).Some?
    requires var s := SysRun(svc, START_STATE, events).value; t < |s.tasks| && Past(s.tasks[t].phase)
    ensures var s := SysRun(svc, START_STATE, events).value; Streams(s.tasks[t]) ==> OnLine(s, s.tasks[t])
  {
    hide SysRun, OnLine;
    if Streams(SysRun(svc, START_STATE, events).value.tasks[t]) {
      IdStandsForOwnChannel(svc, events, t);
    }
  }

  lemma CalledFromMethod(svc: D.Service, s: System, t: Task, r: C.Reply)
    requires t.call.Some? && t.req.name in svc.handlers && r.Answer? && Truthful(svc, t, ReplyAsResponse(r))
    requires t.draft.Some? && D.RightDraft(svc, true, t.req, t.call, t.draft.value)
    requires Streams(t) ==> OnLine(s, t)
    ensures FromMethod(svc, s.mux.regs, t.req.name, t.call.value.args, t.req.id, r)
  {
    hide D.Callable, D.RightArgs;
    assert svc.behaves(t.req.name, t.call.value.args, t.call.value.result);
    assert Reports(s.mux.regs, svc.handlers[t.req.name], t.call.value.result, t.chan, t.req.id, r);
  }

  lemma MatchingFromInv(s: System, id: Id)
    requires SysInv(s)
    requires id in s.client.returned && s.client.returned[id].Got? && s.client.returned[id].reply.Answer?
    ensures id in s.client.calls
    ensures exists t :: 0 <= t < |s.tasks| && Answers(s.tasks[t], id, s.client.calls[id], s.client.returned[id].reply)
  {
    var r := s.client.returned[id].reply;
    assert r in C.RepliesTo(s.client.conn, id);
    assert r.id == id && FromWire(s, r);
    var j :| 0 <= j < s.read && j < |s.down| && s.down[j] == Resp(r.id, r.result, r.error);
    assert Backed(s, s.down[j]);
    var t :| 0 <= t < |s.tasks| && Past(s.tasks[t].phase) && RespFrame(s.tasks[t]) == Resp(id, r.result, r.error);
    assert s.tasks[t].req == s.client.taken[t] && s.client.taken[t].id == id;
    assert Answers(s.tasks[t], id, s.client.calls[id], r);
  }

  /** No answer is lost or doubled: in every interleaving, a response the client has read is
      the one reply on its caller's channel, except where a streaming caller got a result
      that is no channel id; and no id is answered twice on the wire. */
  lemma NoAnswerLost(svc: D.Service, events: seq<SysEvent>, j: nat)
    requires SysRun(svc, START_STATE, events).Some?
    requires var s := SysRun(svc, START_STATE, events).value; j < |s.down| && s.down[j].Resp?
    ensures var s := SysRun(svc, START_STATE, events).value;
      var w := s.down[j];
      && (j < s.read ==>
           || C.RepliesTo(s.client.conn, w.id) == [C.Answer(w.id, w.result, w.error)]
           || (w.id in s.client.calls && s.client.calls[w.id].sink && w.result.Some? &&
               w.result.value.Json?))
      && forall i :: 0 <= i < |s.down| && i != j && s.down[i].Resp? ==> s.down[i].id != w.id
  {
    hide SysRun, C.Inv, StreamsOk, TasksOk, C.RepliesTo;
    StartInv();
    SysRunKeeps(svc, START_STATE, events);
  }

  /** No request is executed twice: different tasks run different callers' requests. */
  lemma ExecutedAtMostOnce(svc: D.Service, events: seq<SysEvent>, t: nat, u: nat)
    requires SysRun(svc, START_STATE, events).Some?
    requires t < u < |SysRun(svc, START_STATE, events).value.tasks|
    ensures var s := SysRun(svc, START_STATE, events).value; s.tasks[t].req.id != s.tasks[u].req.id
  {
    StartInv();
    SysRunKeeps(svc, START_STATE, events);
  }

  /** Wire order of streams: in every interleaving, each value or close notification on the
      wire is preceded by the response that carries its channel's id. */
  lemma ResponseBeforeStream(svc: D.Service, events: seq<SysEvent>, j: nat)
    requires SysRun(svc, START_STATE, events).Some?
    requires var s := SysRun(svc, START_STATE, events).value; j < |s.down| && s.down[j].Notify?
    ensures var s := SysRun(svc, START_STATE, events).value;
      exists i, t :: 0 <= i < j && 0 <= t < |s.tasks| && Streams(s.tasks[t])
        && s.tasks[t].chan == Some(s.down[j].notice.id)
        && s.down[i] == RespFrame(s.tasks[t])
        && s.down[i].result == Some(Number(s.down[j].notice.id))
  {
    hide SysRun, C.Inv, Mux.Aligned, AnswersOk;
    StartInv();
    SysRunKeeps(svc, START_STATE, events);
    var s := SysRun(svc, START_STATE, events).value;
    var id := s.down[j].notice.id;
    assert Announced(s, j, id);
    var i :| 0 <= i < j && AnnouncedAt(s, i, id);
    var t :| 0 <= t < |s.tasks| && Past(s.tasks[t].phase) && s.tasks[t].chan == Some(id) &&
             RespFrame(s.tasks[t]) == s.down[i];
    assert Streams(s.tasks[t]);
  }

  /** The write lock is never held by two handlers at once. */
  lemma WriteLockIsExclusive(svc: D.Service, events: seq<SysEvent>, t: nat, u: nat)
    requires SysRun(svc, START_STATE, events).Some?
    requires var s := SysRun(svc, START_STATE, events).value;
      t < |s.tasks| && u < |s.tasks| && Holds(s.tasks[t].phase) && Holds(s.tasks[u].phase)
    ensures t == u
  {
    StartInv();
    SysRunKeeps(svc, START_STATE, events);
  }

  /** Every request the server reads is a call: in every interleaving its name is neither
      empty nor one of the connection's own. */
  lemma ServedAsCalls(svc: D.Service, events: seq<SysEvent>, i: nat)
    requires SysRun(svc, START_STATE, events).Some?
    requires i < |SysRun(svc, START_STATE, events).value.client.taken|
    ensures var name := SysRun(svc, START_STATE, events).value.client.taken[i].name;
      name != "" && name != "xrpc.cancel" && name != "xrpc.ch.val" && name != "xrpc.ch.close"
  {
    hide SysRun;
    Reached(svc, events);
  }
}
