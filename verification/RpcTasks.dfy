/** The life of one server task in the running system: its steps from dispatch to return, what it
    has done and what it still owes. */
module RpcTasks {
  import opened Words
  import opened RpcMessages
  import opened RpcSystem
  import C = RpcClient
  import D = Dispatch

  /** The response of a task is right for its request, and the method call behind it, if any,
      is one the method can make on those arguments. */
  ghost predicate AnswerRight(svc: D.Service, t: Task) {
    && t.draft.Some?
    && D.RightDraft(svc, true, t.req, t.call, t.draft.value)
    && (t.call.Some? ==> svc.behaves(t.req.name, t.call.value.args, t.call.value.result))
  }

  /** `done` is still to be called once, explicitly or by a deferred call. */
  ghost predicate OwesOneDone(svc: D.Service, t: Task) {
    if t.owesDone then t.deferred == [] && !D.Keeps(svc.handlers, t.req)
    else t.deferred == [D.Keeps(svc.handlers, t.req)]
  }

  ghost predicate IsAttempt(t: Task, e: D.Effect) {
    e == D.EncodeFailed || (t.draft.Some? && e == D.Wrote(ResponseOf(t)))
  }

  ghost predicate Finished(svc: D.Service, t: Task) {
    && |t.trace| == 2 && IsAttempt(t, t.trace[0]) && t.trace[1] == D.CalledDone(D.Keeps(svc.handlers, t.req))
    && !t.owesDone && t.deferred == []
  }

  /** What a task has done and still owes, phase by phase. */
  ghost predicate LifeOk(svc: D.Service, t: Task) {
    match t.phase
    case Running => t == NewTask(t.req)
    case Calling(args) =>
      && t.trace == [] && !t.owesDone && t.deferred == [D.Keeps(svc.handlers, t.req)]
      && D.Callable(svc, true, t.req)
      && D.RightArgs(args, svc.handlers[t.req.name], t.req.params, svc.decode)
    case Leaving =>
      && AnswerRight(svc, t)
      && ((|t.trace| == 1 && IsAttempt(t, t.trace[0]) && OwesOneDone(svc, t)) || Finished(svc, t))
    case Done => AnswerRight(svc, t) && Finished(svc, t)
    case _ => AnswerRight(svc, t) && t.trace == [] && OwesOneDone(svc, t)
  }

  /** The context of a call is on record until `done(false)`. */
  ghost predicate OnRecord(s: System, t: Task) {
    t.req.id in s.handling <==> D.CalledDone(false) !in t.trace
  }

  ghost predicate LivesOk(svc: D.Service, s: System) {
    forall t :: 0 <= t < |s.tasks| ==> LifeOk(svc, s.tasks[t]) && OnRecord(s, s.tasks[t])
  }

  lemma DispatchedLife(svc: D.Service, t: Task)
    requires LifeOk(svc, t) && t.phase.Running?
    ensures LifeOk(svc, Dispatched(svc, t)) && Dispatched(svc, t).trace == []
  {
    hide D.RightDraft, D.Callable, D.RightArgs, D.Begin;
    D.BeginRight(svc, t.req);
  }

  lemma ConcludedLife(svc: D.Service, t: Task, r: D.Result)
    requires LifeOk(svc, t) && t.phase.Calling? && t.req.name in svc.handlers
    requires svc.behaves(t.req.name, t.phase.args, r)
    ensures LifeOk(svc, Concluded(svc, t, r)) && Concluded(svc, t, r).trace == []
  {
    hide D.RightDraft, D.Callable, D.RightArgs, D.Conclude;
    D.ConcludeRight(svc, true, t.req, t.phase.args, r);
  }

  /** Drawing the channel id is part of the response, not of its rightness. */
  lemma LockedLife(svc: D.Service, t: Task, p: Phase, chan: Option<ChanId>)
    requires LifeOk(svc, t) && (t.phase.Ready? || Holds(t.phase)) && Holds(p)
    ensures LifeOk(svc, t.(phase := p, chan := chan))
  {
    hide D.RightDraft;
  }

  lemma FlushedLife(svc: D.Service, t: Task, encodes: bool)
    requires LifeOk(svc, t) && Holds(t.phase)
    ensures LifeOk(svc, Flushed(t, encodes)) && D.CalledDone(false) !in Flushed(t, encodes).trace
  {
    hide D.RightDraft;
  }

  lemma LeavingLife(svc: D.Service, t: Task)
    requires LifeOk(svc, t) && t.phase.Leaving?
    ensures t.owesDone ==> LifeOk(svc, DoneCalled(t)) && D.CalledDone(false) in DoneCalled(t).trace
    ensures !t.owesDone && t.deferred != [] ==>
      && LifeOk(svc, DeferredRun(t))
      && (D.CalledDone(false) in DeferredRun(t).trace <==> !t.deferred[|t.deferred| - 1])
      && D.CalledDone(false) !in t.trace
    ensures !t.owesDone && t.deferred == [] ==> LifeOk(svc, t.(phase := Done))
  {
    hide D.RightDraft;
  }

  /** A step of one task that keeps its request and its own life. */
  lemma OneLifeChanges(svc: D.Service, s: System, u: System, t: nat)
    requires LivesOk(svc, s) && t < |s.tasks| == |u.tasks|
    requires u.tasks == s.tasks[t := u.tasks[t]] && u.tasks[t].req == s.tasks[t].req
    requires LifeOk(svc, u.tasks[t]) && OnRecord(u, u.tasks[t])
    requires forall k :: 0 <= k < |s.tasks| && k != t ==> s.tasks[k].req.id != s.tasks[t].req.id
    requires forall id :: id != s.tasks[t].req.id ==> (id in u.handling <==> id in s.handling)
    ensures LivesOk(svc, u)
  {
    hide LifeOk;
    forall k | 0 <= k < |u.tasks| ensures LifeOk(svc, u.tasks[k]) && OnRecord(u, u.tasks[k]) {
      if k != t { assert u.tasks[k] == s.tasks[k] && OnRecord(s, s.tasks[k]); }
    }
  }

  lemma ReadLife(svc: D.Service, s: System)
    requires C.Inv(s.client) && TasksOk(s) && LivesOk(svc, s) && SysStep(svc, s, ServerReads).Some?
    ensures LivesOk(svc, SysStep(svc, s, ServerReads).value)
  {
    hide LifeOk;
    var u := SysStep(svc, s, ServerReads).value;
    var n := |s.tasks|;
    forall k | 0 <= k < |u.tasks| ensures LifeOk(svc, u.tasks[k]) && OnRecord(u, u.tasks[k]) {
      if k < n {
        assert u.tasks[k] == s.tasks[k] && OnRecord(s, s.tasks[k]);
        assert s.tasks[k].req == s.client.taken[k] && s.client.taken[k].id != s.client.taken[n].id;
      } else {
        NewLife(svc, s.client.taken[n]);
      }
    }
  }

  lemma NewLife(svc: D.Service, req: Request)
    ensures LifeOk(svc, NewTask(req)) && NewTask(req).trace == []
  {
  }

  lemma TaskEventLife(svc: D.Service, s: System, e: SysEvent)
    requires SysInv(s) && LivesOk(svc, s) && SysStep(svc, s, e).Some?
    requires e.Dispatch? || e.MethodReturns? || e.Lock? || e.Draw? || e.Accept? || e.Flush?
    ensures LivesOk(svc, SysStep(svc, s, e).value)
  {
    hide LifeOk, SysInv, Dispatched, Concluded, Flushed;
    var u, t := SysStep(svc, s, e).value, e.task;
    assert LifeOk(svc, s.tasks[t]) && OnRecord(s, s.tasks[t]);
    IdsDistinct(s, t);
    SameRequest(svc, s.tasks[t]);
    match e {
      case Dispatch(_) => DispatchedLife(svc, s.tasks[t]);
      case MethodReturns(_, r) => ConcludedLife(svc, s.tasks[t], r);
      case Lock(_) => LockedLife(svc, s.tasks[t], Locked, s.tasks[t].chan);
      case Draw(_) => LockedLife(svc, s.tasks[t], Registering, Some(s.chanCtr + 1));
      case Accept(_) => LockedLife(svc, s.tasks[t], Registered, s.tasks[t].chan);
      case Flush(_, ok) => FlushedLife(svc, s.tasks[t], ok);
    }
    OneLifeChanges(svc, s, u, t);
  }

  lemma SameRequest(svc: D.Service, t: Task)
    ensures Dispatched(svc, t).req == t.req
    ensures forall r :: t.phase.Calling? && t.req.name in svc.handlers ==> Concluded(svc, t, r).req == t.req
    ensures forall ok :: Flushed(t, ok).req == t.req
    ensures LifeOk(svc, t) && !Past(t.phase) ==> t.trace == []
  {
  }

  lemma IdsDistinct(s: System, t: nat)
    requires SysInv(s) && t < |s.tasks|
    ensures forall k :: 0 <= k < |s.tasks| && k != t ==> s.tasks[k].req.id != s.tasks[t].req.id
  {
    TaskIdsDistinct(s, t);
  }

  lemma LeavingEventLife(svc: D.Service, s: System, e: SysEvent)
    requires SysInv(s) && LivesOk(svc, s) && SysStep(svc, s, e).Some?
    requires e.CallDone? || e.RunDeferred? || e.Finish?
    ensures LivesOk(svc, SysStep(svc, s, e).value)
  {
    hide LifeOk, SysInv;
    var u, t := SysStep(svc, s, e).value, e.task;
    assert LifeOk(svc, s.tasks[t]) && OnRecord(s, s.tasks[t]);
    IdsDistinct(s, t);
    LeavingLife(svc, s.tasks[t]);
    OneLifeChanges(svc, s, u, t);
  }

  lemma StepLife(svc: D.Service, s: System, e: SysEvent)
    requires SysInv(s) && LivesOk(svc, s) && SysStep(svc, s, e).Some?
    ensures LivesOk(svc, SysStep(svc, s, e).value)
  {
    hide LifeOk;
    match e
    case ServerReads => ReadLife(svc, s);
    case Dispatch(_) => TaskEventLife(svc, s, e);
    case MethodReturns(_, _) => TaskEventLife(svc, s, e);
    case Lock(_) => TaskEventLife(svc, s, e);
    case Draw(_) => TaskEventLife(svc, s, e);
    case Accept(_) => TaskEventLife(svc, s, e);
    case Flush(_, _) => TaskEventLife(svc, s, e);
    case CallDone(_) => LeavingEventLife(svc, s, e);
    case RunDeferred(_) => LeavingEventLife(svc, s, e);
    case Finish(_) => LeavingEventLife(svc, s, e);
    case _ => OtherEventLife(svc, s, e);
  }

  lemma OtherEventLife(svc: D.Service, s: System, e: SysEvent)
    requires LivesOk(svc, s) && SysStep(svc, s, e).Some?
    requires e.OfClient? || e.ClientReads? || e.MuxValue? || e.MuxClosed? || e.MuxWrite?
    ensures LivesOk(svc, SysStep(svc, s, e).value)
  {
    hide LifeOk, C.Step;
    var u := SysStep(svc, s, e).value;
    forall k | 0 <= k < |u.tasks| ensures LifeOk(svc, u.tasks[k]) && OnRecord(u, u.tasks[k]) {
      assert u.tasks[k] == s.tasks[k] && OnRecord(s, s.tasks[k]);
    }
  }

  lemma {:induction false} RunLife(svc: D.Service, s: System, events: seq<SysEvent>)
    requires SysInv(s) && LivesOk(svc, s) && SysRun(svc, s, events).Some?
    ensures LivesOk(svc, SysRun(svc, s, events).value)
    decreases |events|
  {
    hide SysInv, SysStep, LivesOk;
    if events != [] {
      SysStepKeeps(svc, s, events[0]);
      StepLife(svc, s, events[0]);
      RunLife(svc, SysStep(svc, s, events[0]).value, events[1..]);
    }
  }
}
