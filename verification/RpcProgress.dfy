/** What can always happen in the running system: unless the connection is wedged or bound for it,
    every new call can be answered and every registered channel can be heard. */
module RpcProgress {
  import opened Words
  import opened RpcMessages
  import opened RpcSystem
  import opened RpcTasks
  import opened RpcStreams
  import opened RpcTheorems
  import opened RpcWedge
  import C = RpcClient
  import D = Dispatch
  import Mux = OutChanMux

  ghost predicate Reaches(svc: D.Service, s: System, u: System) {
    exists events :: SysRun(svc, s, events) == Some(u)
  }

  lemma ReachSelf(svc: D.Service, s: System)
    ensures Reaches(svc, s, s)
  {
    assert SysRun(svc, s, []) == Some(s);
  }

  lemma ReachStep(svc: D.Service, s: System, e: SysEvent)
    requires SysStep(svc, s, e).Some?
    ensures Reaches(svc, s, SysStep(svc, s, e).value)
  {
    hide SysRun, SysStep;
    OneStep(svc, s, e);
  }

  lemma ReachOn(svc: D.Service, s: System, u: System, v: System)
    requires Reaches(svc, s, u) && Reaches(svc, u, v)
    ensures Reaches(svc, s, v)
  {
    hide SysRun;
    var a :| SysRun(svc, s, a) == Some(u);
    var b :| SysRun(svc, u, b) == Some(v);
    RunAppend(svc, s, a, b);
  }

  /** The server has written more, all of it decodable, and the client is where it was. */
  ghost predicate WroteMore(s: System, u: System) {
    && u.client == s.client && u.read == s.read && s.down <= u.down
    && forall j :: |s.down| <= j < |u.down| ==> !u.down[j].Garbage?
  }

  lemma WroteOn(s: System, u: System, v: System)
    requires WroteMore(s, u) && WroteMore(u, v)
    ensures WroteMore(s, v)
  {
    forall j | |s.down| <= j < |v.down| ensures !v.down[j].Garbage? {
      if j < |u.down| { assert v.down[j] == u.down[j]; }
    }
  }

  /** The lock is free and the multiplexer has nothing to write. */
  predicate Clear(s: System) {
    s.writeLK.None? && s.pending.None?
  }

  lemma ClearLock(svc: D.Service, s: System) returns (u: System)
    requires SysInv(s) && !Doomed(s)
    ensures Reaches(svc, s, u) && SysInv(u) && Clear(u) && WroteMore(s, u) && StillOpen(s.mux, u.mux)
  {
    hide SysInv, Doomed, SysRun, Reaches;
    u := s;
    ReachSelf(svc, s);
    if s.writeLK.Some? {
      var events := CanRelease(svc, s);
      u := SysRun(svc, s, events).value;
      assert Reaches(svc, s, u) by { RunReaches(svc, s, events); }
    }
    if u.pending.Some? {
      var v := SysStep(svc, u, MuxWrite).value;
      SysStepKeeps(svc, u, MuxWrite);
      ReachStep(svc, u, MuxWrite);
      ReachOn(svc, s, u, v);
      WroteOn(s, u, v);
      u := v;
    }
  }

  lemma RunReaches(svc: D.Service, s: System, events: seq<SysEvent>)
    requires SysRun(svc, s, events).Some?
    ensures Reaches(svc, s, SysRun(svc, s, events).value)
  {
  }

  // ------------------------------------------------------- every value can go out

  /** Every open channel can be heard: in every interleaving, unless the lock's holder is doomed,
      whatever an open channel yields next can be received from it and reach the wire under the
      channel's id. */
  lemma EveryValueCanGoOut(svc: D.Service, events: seq<SysEvent>, id: ChanId, v: Value)
    requires SysRun(svc, START_STATE, events).Some?
    requires var s := SysRun(svc, START_STATE, events).value; !Doomed(s) && id in s.mux.mux.caseToID
    ensures var s := SysRun(svc, START_STATE, events).value;
      && id in s.mux.regs
      && (exists u :: Reaches(svc, s, u) && u.down != [] && u.down[|u.down| - 1] == Notify(Mux.ChVal(id, v))
            && u.mux.received == s.mux.received + [(s.mux.regs[id], v)])
      && (exists u :: Reaches(svc, s, u) && u.down != [] && u.down[|u.down| - 1].Notify?
            && u.down[|u.down| - 1].notice.ChClose? && id !in u.mux.mux.caseToID)
  {
    hide SysRun, SysInv, Doomed, Reaches;
    ChannelsReached(svc, events);
    var s := SysRun(svc, START_STATE, events).value;
    var here := OpenIsRegistered(s, id);
    var u := ClearLock(svc, s);
    var slot := OpenIsRegistered(u, id);
    assert SysStep(svc, u, MuxValue(slot, v)).Some?;
    var w := SysStep(svc, u, MuxValue(slot, v)).value;
    ReachStep(svc, u, MuxValue(slot, v));
    ReachOn(svc, s, u, w);
    var x := SysStep(svc, w, MuxWrite).value;
    ReachStep(svc, w, MuxWrite);
    ReachOn(svc, s, w, x);
    CloseCanGoOut(svc, s, u, id, slot);
  }

  lemma CloseCanGoOut(svc: D.Service, s: System, u: System, id: ChanId, slot: nat)
    requires Reaches(svc, s, u) && SysInv(u) && Clear(u) && id in u.mux.mux.caseToID && Mux.Shaped(u.mux.mux)
    requires 1 <= slot <= |u.mux.mux.caseToID| && u.mux.mux.caseToID[slot - 1] == id
    ensures exists x :: Reaches(svc, s, x) && x.down != [] && x.down[|x.down| - 1].Notify?
              && x.down[|x.down| - 1].notice.ChClose? && id !in x.mux.mux.caseToID
  {
    hide SysInv, SysRun, Reaches;
    assert SysStep(svc, u, MuxClosed(slot)).Some?;
    var w := SysStep(svc, u, MuxClosed(slot)).value;
    ReachStep(svc, u, MuxClosed(slot));
    ReachOn(svc, s, u, w);
    var x := SysStep(svc, w, MuxWrite).value;
    ReachStep(svc, w, MuxWrite);
    ReachOn(svc, s, w, x);
    MuxPart(u);
    Mux.RemoveAligned(u.mux.mux, u.mux.regs, slot);
  }

  lemma MuxPart(s: System)
    requires SysInv(s)
    ensures Mux.Consistent(s.mux)
  {
    hide C.Inv, TasksOk, AnswersOk, Settled, Mux.Consistent, Announced;
  }

  lemma OpenIsRegistered(s: System, id: ChanId) returns (slot: nat)
    requires SysInv(s) && id in s.mux.mux.caseToID
    ensures id in s.mux.regs && Mux.Shaped(s.mux.mux)
    ensures 1 <= slot <= |s.mux.mux.caseToID| && s.mux.mux.caseToID[slot - 1] == id
    ensures s.mux.mux.cases[slot] == Mux.Out(s.mux.regs[id])
  {
    hide C.Inv, TasksOk, AnswersOk, Settled;
    var i :| 0 <= i < |s.mux.mux.caseToID| && s.mux.mux.caseToID[i] == id;
    slot := i + 1;
  }

  // ---------------------------------------------------- every call can return

  /** A caller's request has been taken by the serving loop, last of all. */
  ghost predicate JustTaken(c: C.Client, id: Id, call: C.Call) {
    && c.loop.Serving? && id in c.calls && c.calls[id] == call && id !in c.returned
    && c.taken != [] && c.taken[|c.taken| - 1] == C.RequestOf(id, call).req
  }

  /** The loop takes what is queued, and then the new call. */
  lemma {:induction false} MakeCall(svc: D.Service, s: System, call: C.Call) returns (u: System)
    requires SysInv(s) && C.Accounted(s.client) && s.client.loop.Serving? && CallName(call.name)
    ensures Reaches(svc, s, u) && SysInv(u) && JustTaken(u.client, s.client.idCtr + 1, call)
    ensures u == s.(client := u.client) && |u.client.taken| > |s.client.taken|
    decreases |s.client.queue|
  {
    hide SysInv, SysRun, Reaches, CallName, C.Accounted, JustTaken;
    if s.client.queue != [] {
      var v := CallerStep(svc, s, C.Take);
      u := MakeCall(svc, v, call);
      ReachOn(svc, s, v, u);
    } else {
      u := NewCall(svc, s, call);
    }
  }

  lemma CallerStep(svc: D.Service, s: System, e: C.Event) returns (u: System)
    requires SysInv(s) && C.Accounted(s.client) && C.Step(s.client, e).Some? && !e.Incoming?
    ensures Reaches(svc, s, u) && SysInv(u) && C.Accounted(u.client)
    ensures u == s.(client := C.Step(s.client, e).value)
  {
    hide SysInv, SysRun, Reaches, C.Accounted, C.Step;
    u := SysStep(svc, s, OfClient(e)).value;
    ReachStep(svc, s, OfClient(e));
    SysStepKeeps(svc, s, OfClient(e));
    ClientPart(s);
    C.StepAccounts(s.client, e);
  }

  lemma ClientPart(s: System)
    requires SysInv(s)
    ensures C.Inv(s.client)
  {
  }

  lemma NewCall(svc: D.Service, s: System, call: C.Call) returns (u: System)
    requires SysInv(s) && C.Accounted(s.client) && s.client.loop.Serving? && s.client.queue == [] && CallName(call.name)
    ensures Reaches(svc, s, u) && SysInv(u) && JustTaken(u.client, s.client.idCtr + 1, call)
    ensures u == s.(client := u.client) && |u.client.taken| > |s.client.taken|
  {
    hide SysInv, SysRun, Reaches, CallName, C.Accounted;
    var id := s.client.idCtr + 1;
    ClientPart(s);
    NewIdUnused(s.client);
    var a := CallerStep(svc, s, C.BeginCall(call));
    var b := CallerStep(svc, a, C.Enqueue(id));
    u := CallerStep(svc, b, C.Take);
    ReachOn(svc, s, a, b);
    ReachOn(svc, s, b, u);
  }

  lemma NewIdUnused(c: C.Client)
    requires C.Inv(c) && C.Accounted(c)
    ensures c.idCtr + 1 !in c.returned
  {
    forall id | id in c.returned ensures id in c.calls { ReturnedIsCalled(c, id); }
  }

  lemma ReturnedIsCalled(c: C.Client, id: Id)
    requires C.Inv(c) && C.Accounted(c) && id in c.returned
    ensures id in c.calls
  {
    if c.returned[id].Got? {
      assert C.RepliesTo(c.conn, id) == [c.returned[id].reply];
      assert C.Taken(c, id);
    } else {
      assert C.HasGivenUp(c, id);
    }
  }

  /** The server reads every request that has been written. */
  lemma {:induction false} ReadRequests(svc: D.Service, s: System) returns (u: System)
    requires SysInv(s)
    ensures Reaches(svc, s, u) && SysInv(u) && |u.tasks| == |u.client.taken|
    ensures u == s.(tasks := u.tasks, handling := u.handling) && s.tasks <= u.tasks
    ensures forall k :: |s.tasks| <= k < |u.tasks| ==> u.tasks[k] == NewTask(s.client.taken[k])
    decreases |s.client.taken| - |s.tasks|
  {
    hide SysInv, SysRun, Reaches;
    assert |s.tasks| <= |s.client.taken| by { ServerPart(s); }
    u := s;
    ReachSelf(svc, s);
    if |s.tasks| < |s.client.taken| {
      var v := SysStep(svc, s, ServerReads).value;
      ReachStep(svc, s, ServerReads);
      SysStepKeeps(svc, s, ServerReads);
      u := ReadRequests(svc, v);
      ReachOn(svc, s, v, u);
    }
  }

  /** The call the server makes for a request whose method does `result`. */
  function CallMade(svc: D.Service, req: Request, result: D.Result): Option<D.Invocation> {
    match D.Begin(svc, req)
    case Refused(_, _) => None
    case Invoking(args) => Some(D.Invocation(args, result))
  }

  /** The method, if it is called, can do this. */
  ghost predicate CanDo(svc: D.Service, req: Request, result: D.Result) {
    D.Begin(svc, req).Invoking? ==>
      req.name in svc.handlers && svc.behaves(req.name, D.Begin(svc, req).args, result)
  }

  /** A new task up to its response, ready to be written. */
  lemma Prepare(svc: D.Service, s: System, t: nat, result: D.Result) returns (u: System)
    requires SysInv(s) && t < |s.tasks| && s.tasks[t] == NewTask(s.tasks[t].req)
    requires CanDo(svc, s.tasks[t].req, result)
    ensures Reaches(svc, s, u) && SysInv(u) && t < |u.tasks| && u == s.(tasks := s.tasks[t := u.tasks[t]])
    ensures u.tasks[t].phase.Ready? && u.tasks[t].req == s.tasks[t].req
    ensures u.tasks[t].call == CallMade(svc, s.tasks[t].req, result)
    ensures if u.tasks[t].owesDone then u.tasks[t].deferred == [] else |u.tasks[t].deferred| == 1
  {
    hide SysInv, SysRun, Reaches, D.Begin;
    u := SysStep(svc, s, Dispatch(t)).value;
    ReachStep(svc, s, Dispatch(t));
    SysStepKeeps(svc, s, Dispatch(t));
    if u.tasks[t].phase.Calling? {
      var v := u;
      u := SysStep(svc, v, MethodReturns(t, result)).value;
      ReachStep(svc, v, MethodReturns(t, result));
      SysStepKeeps(svc, v, MethodReturns(t, result));
      ReachOn(svc, s, v, u);
    }
  }

  /** A prepared response is written. */
  lemma WriteResponse(svc: D.Service, s: System, t: nat) returns (u: System)
    requires SysInv(s) && Clear(s) && At(s, t, Ready)
    ensures Reaches(svc, s, u) && SysInv(u) && WroteMore(s, u) && Written(u, t)
    ensures t < |s.tasks| && SameTask(s.tasks[t], u.tasks[t])
  {
    hide SysInv, SysRun, Reaches, Written;
    var v := SysStep(svc, s, Lock(t)).value;
    ReachStep(svc, s, Lock(t));
    SysStepKeeps(svc, s, Lock(t));
    var events := CanRelease(svc, v);
    u := SysRun(svc, v, events).value;
    RunReaches(svc, v, events);
    ReachOn(svc, s, v, u);
    WroteOn(s, v, u);
  }

  /** The handler calls `done` and returns. */
  lemma Return(svc: D.Service, s: System, t: nat) returns (u: System)
    requires SysInv(s) && At(s, t, Leaving)
    requires if s.tasks[t].owesDone then s.tasks[t].deferred == [] else |s.tasks[t].deferred| == 1
    ensures Reaches(svc, s, u) && SysInv(u) && u.down == s.down && u.client == s.client && u.read == s.read
    ensures At(u, t, Done) && u.tasks[t].req == s.tasks[t].req && u.tasks[t].call == s.tasks[t].call
    ensures RespFrame(u.tasks[t]) == RespFrame(s.tasks[t])
  {
    hide SysInv, SysRun, Reaches;
    var e := if s.tasks[t].owesDone then CallDone(t) else RunDeferred(t);
    var v := SysStep(svc, s, e).value;
    ReachStep(svc, s, e);
    SysStepKeeps(svc, s, e);
    u := SysStep(svc, v, Finish(t)).value;
    ReachStep(svc, v, Finish(t));
    SysStepKeeps(svc, v, Finish(t));
    ReachOn(svc, s, v, u);
  }

  /** Everything on the wire that the client has not read can be decoded. */
  ghost predicate Decodable(s: System) {
    forall j :: s.read <= j < |s.down| ==> !s.down[j].Garbage?
  }

  /** The client reads all that is on the wire. */
  lemma {:induction false} ReadAll(svc: D.Service, s: System) returns (u: System)
    requires SysInv(s) && Decodable(s) && s.client.loop.Serving?
    ensures Reaches(svc, s, u) && SysInv(u) && u.read == |u.down|
    ensures u == s.(client := u.client, read := u.read)
    ensures u.client.calls == s.client.calls && u.client.returned == s.client.returned
    decreases |s.down| - s.read
  {
    hide SysInv, SysRun, Reaches;
    assert s.read <= |s.down| by { WirePart(s); }
    u := s;
    ReachSelf(svc, s);
    if s.read < |s.down| {
      ReadEnabled(s);
      var v := SysStep(svc, s, ClientReads).value;
      ReachStep(svc, s, ClientReads);
      SysStepKeeps(svc, s, ClientReads);
      u := ReadAll(svc, v);
      ReachOn(svc, s, v, u);
    }
  }

  lemma WirePart(s: System)
    requires SysInv(s)
    ensures s.read <= |s.down| && Settled(s)
  {
    hide C.Inv, TasksOk, StreamsOk, Settled;
  }

  lemma ReadEnabled(s: System)
    requires s.read < |s.down| && !s.down[s.read].Garbage? && s.client.loop.Serving?
    ensures ClientRead(s).Some?
    ensures var u := ClientRead(s).value;
      && u == s.(client := u.client, read := s.read + 1) && u.client.loop.Serving?
      && u.client.calls == s.client.calls && u.client.returned == s.client.returned
  {
    if s.down[s.read].Notify? { UnheardStep(s, s.read); }
  }

  lemma {:induction false} RunAccounted(svc: D.Service, s: System, events: seq<SysEvent>)
    requires SysInv(s) && C.Accounted(s.client) && SysRun(svc, s, events).Some?
    ensures C.Accounted(SysRun(svc, s, events).value.client)
    decreases |events|
  {
    hide SysInv, SysStep, C.Accounted;
    if events != [] {
      SysStepKeeps(svc, s, events[0]);
      StepAccounted(svc, s, events[0]);
      RunAccounted(svc, SysStep(svc, s, events[0]).value, events[1..]);
    }
  }

  lemma StepAccounted(svc: D.Service, s: System, e: SysEvent)
    requires SysInv(s) && C.Accounted(s.client) && SysStep(svc, s, e).Some?
    ensures C.Accounted(SysStep(svc, s, e).value.client)
  {
    hide SysInv, C.Step, C.Accounted;
    ClientPart(s);
    if e.OfClient? {
      C.StepAccounts(s.client, e.event);
    } else if e.ClientReads? {
      C.StepAccounts(s.client, if s.down[s.read].Garbage? then C.Leave else C.Incoming(ToFrame(s.down[s.read])));
    }
  }

  lemma ReachedFromStart(svc: D.Service, s: System, u: System, events: seq<SysEvent>)
    requires SysRun(svc, START_STATE, events) == Some(s) && Reaches(svc, s, u)
    ensures SysInv(u) && LivesOk(svc, u) && ChannelsOk(u)
  {
    hide SysRun, SysInv, LivesOk, ChannelsOk;
    var more :| SysRun(svc, s, more) == Some(u);
    RunAppend(svc, START_STATE, events, more);
    Reached(svc, events + more);
  }

  /** The method behind a request, if it can be called, can do this. */
  ghost predicate CanResult(svc: D.Service, req: Request, result: D.Result) {
    D.Callable(svc, true, req) ==>
      forall args :: D.RightArgs(args, svc.handlers[req.name], req.params, svc.decode) ==>
        svc.behaves(req.name, args, result)
  }

  lemma CanResultCanDo(svc: D.Service, req: Request, result: D.Result)
    requires CanResult(svc, req, result)
    ensures CanDo(svc, req, result)
  {
    hide D.Begin, D.RightDraft, D.RightArgs;
    D.BeginRight(svc, req);
  }

  /** Call `id` has been handled to the end, its method having done `result`, and its caller has
      returned with the right response, unless it wants a stream and got some other value. */
  ghost predicate Served(svc: D.Service, u: System, id: Id, call: C.Call, result: D.Result) {
    exists t :: 0 <= t < |u.tasks| && ServedBy(svc, u, u.tasks[t], id, call, result)
  }

  ghost predicate ServedBy(svc: D.Service, u: System, t: Task, id: Id, call: C.Call, result: D.Result) {
    && t.phase.Done? && t.draft.Some? && t.req == Request(id, call.name, call.params)
    && (t.call.Some? ==> t.call.value.result == result)
    && Truthful(svc, t, ResponseOf(t))
    && var r := ResponseOf(t);
    || (call.sink && r.result.Some? && r.result.value.Json?)
    || (id in u.client.returned && u.client.returned[id] == C.Got(C.Answer(id, r.result, r.error)))
  }

  /** Every call can return: in every interleaving, while the client's loop serves, the wire can be
      decoded and the lock's holder is not doomed, some continuation of a new call has it
      handled to the end and answered with whatever its method does. */
  lemma EveryCallCanReturn(svc: D.Service, events: seq<SysEvent>, call: C.Call, result: D.Result)
    requires SysRun(svc, START_STATE, events).Some? && CallName(call.name)
    requires var s := SysRun(svc, START_STATE, events).value;
      && s.client.loop.Serving? && Decodable(s) && !Doomed(s)
      && CanResult(svc, Request(s.client.idCtr + 1, call.name, call.params), result)
    ensures var s := SysRun(svc, START_STATE, events).value;
      exists u :: Reaches(svc, s, u) && Served(svc, u, s.client.idCtr + 1, call, result)
  {
    hide SysRun, SysInv, Reaches, Doomed, CallName, CanResult, CanDo, C.Accounted, Truthful;
    ChannelsReached(svc, events);
    StartInv();
    C.InitAccounted();
    RunAccounted(svc, START_STATE, events);
    var s := SysRun(svc, START_STATE, events).value;
    var id := s.client.idCtr + 1;
    CanResultCanDo(svc, C.RequestOf(id, call).req, result);
    var a := ClearLock(svc, s);
    var b := MakeCall(svc, a, call);
    ReachOn(svc, s, a, b);
    var c := ReadRequests(svc, b);
    ReachOn(svc, s, b, c);
    var t := |c.tasks| - 1;
    assert |a.tasks| <= |a.client.taken| by { ServerPart(a); }
    assert c.tasks[t] == NewTask(C.RequestOf(id, call).req);
    assert Decodable(c);
    var u := FinishCall(svc, events, s, c, t, id, call, result);
  }

  /** From the request read to the caller's return. */
  lemma FinishCall(svc: D.Service, events: seq<SysEvent>, s: System, c: System, t: nat, id: Id, call: C.Call,
                   result: D.Result)
    returns (u: System)
    requires SysRun(svc, START_STATE, events) == Some(s) && Reaches(svc, s, c) && SysInv(c)
    requires Clear(c) && Decodable(c) && c.client.loop.Serving?
    requires t < |c.tasks| && c.tasks[t] == NewTask(C.RequestOf(id, call).req)
    requires CanDo(svc, C.RequestOf(id, call).req, result)
    requires id in c.client.calls && c.client.calls[id] == call && id !in c.client.returned
    ensures Reaches(svc, s, u) && Served(svc, u, id, call, result)
  {
    hide SysRun, SysInv, Reaches, CanDo, CallName, C.Accounted, Truthful, LivesOk, ChannelsOk, C.Step;
    var d := Prepare(svc, c, t, result);
    ReachOn(svc, s, c, d);
    var e := WriteResponse(svc, d, t);
    ReachOn(svc, s, d, e);
    var f := Return(svc, e, t);
    ReachOn(svc, s, e, f);
    assert f.down[|f.down| - 1] == RespFrame(f.tasks[t]);
    assert WroteMore(d, f);
    StillDecodable(d, f);
    var g := ReadAll(svc, f);
    ReachOn(svc, s, f, g);
    ReachedFromStart(svc, s, g, events);
    AnswerIsTruthful(svc, g, t);
    WirePart(g);
    var w := g.down[|g.down| - 1];
    assert w == RespFrame(g.tasks[t]) && w.Resp? && w.id == id;
    assert DeliveredTo(g.client, w) || Unusable(g.client, w);
    u := g;
    if DeliveredTo(g.client, w) {
      u := CallerReturns(svc, g, id, C.Answer(id, w.result, w.error));
      ReachOn(svc, s, g, u);
    }
    assert ServedBy(svc, u, u.tasks[t], id, call, result);
  }

  lemma CallerReturns(svc: D.Service, s: System, id: Id, r: C.Reply) returns (u: System)
    requires id in s.client.calls && id !in s.client.returned && C.RepliesTo(s.client.conn, id) == [r]
    ensures Reaches(svc, s, u) && u == s.(client := u.client)
    ensures id in u.client.returned && u.client.returned[id] == C.Got(r)
  {
    hide SysRun, Reaches;
    u := SysStep(svc, s, OfClient(C.Return(id))).value;
    ReachStep(svc, s, OfClient(C.Return(id)));
  }

  lemma StillDecodable(s: System, u: System)
    requires Decodable(s) && WroteMore(s, u)
    ensures Decodable(u)
  {
    forall j | u.read <= j < |u.down| ensures !u.down[j].Garbage? {
      if j < |s.down| { assert u.down[j] == s.down[j]; }
    }
  }
}
