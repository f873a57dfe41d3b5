/** The one way the server's write lock is never released: its holder has to register a channel
    while the multiplexer waits for the lock with a notification in hand. */
module RpcWedge {
  import opened Words
  import opened RpcMessages
  import opened RpcSystem
  import opened RpcStreams
  import C = RpcClient
  import D = Dispatch
  import Mux = OutChanMux

  predicate Wedged(s: System) {
    s.writeLK.Some? && At(s, s.writeLK.value, Registering) && s.pending.Some?
  }

  /** The holder is bound for that: it is registering, or is about to, its result being a
      channel. */
  predicate Doomed(s: System) {
    && s.writeLK.Some? && s.writeLK.value < |s.tasks| && s.pending.Some?
    && var t := s.tasks[s.writeLK.value]; t.phase.Registering? || (t.phase.Locked? && Streams(t))
  }

  /** Some event of the handler that holds the lock can happen. */
  ghost predicate HolderMoves(svc: D.Service, s: System)
    requires s.writeLK.Some?
  {
    var t := s.writeLK.value;
    exists e :: OnTheWay(e, t) && SysStep(svc, s, e).Some?
  }

  /** The events between taking the lock and releasing it. */
  predicate OnTheWay(e: SysEvent, t: nat) {
    e == Draw(t) || e == Accept(t) || (e.Flush? && e.task == t)
  }

  lemma HolderIsLocked(s: System)
    requires TasksOk(s) && s.writeLK.Some?
    ensures s.writeLK.value < |s.tasks| && Holds(s.tasks[s.writeLK.value].phase)
  {
  }

  /** A registration that is offered is accepted unless the multiplexer has a notice to write. */
  lemma RegistrationAccepted(svc: D.Service, s: System, t: nat)
    requires TasksOk(s) && StreamsOk(s) && At(s, t, Registering)
    ensures SysStep(svc, s, Accept(t)).Some? <==> s.pending.None?
  {
    hide Mux.Consistent, Announced;
  }

  lemma HolderCanMove(svc: D.Service, s: System)
    requires SysInv(s) && s.writeLK.Some?
    ensures HolderMoves(svc, s) <==> !Wedged(s)
  {
    hide SysInv, StreamsOk, TasksOk, RespFrame, Flushed;
    assert TasksOk(s) && StreamsOk(s) by { ServerPart(s); }
    HolderIsLocked(s);
    var t := s.writeLK.value;
    match s.tasks[t].phase {
      case Locked =>
        var e := if Streams(s.tasks[t]) then Draw(t) else Flush(t, true);
        assert OnTheWay(e, t) && SysStep(svc, s, e).Some?;
      case Registering =>
        RegistrationAccepted(svc, s, t);
        assert OnTheWay(Accept(t), t);
      case Registered =>
        assert OnTheWay(Flush(t, true), t) && SysStep(svc, s, Flush(t, true)).Some?;
    }
  }

  lemma ServerPart(s: System)
    requires SysInv(s)
    ensures TasksOk(s) && StreamsOk(s)
  {
    hide TasksOk, StreamsOk, C.Inv, AnswersOk, Settled;
  }

  /** The server writes nothing more and the lock stays with its holder. */
  ghost predicate SameWire(s: System, u: System) {
    u.down == s.down && u.writeLK == s.writeLK
  }

  lemma DoomedStays(svc: D.Service, s: System, e: SysEvent)
    requires SysInv(s) && Doomed(s) && SysStep(svc, s, e).Some?
    ensures var u := SysStep(svc, s, e).value; Doomed(u) && SameWire(s, u) && (Wedged(s) ==> Wedged(u))
  {
    hide C.Inv, AnswersOk, Settled, StreamsOk, C.Step;
  }

  lemma {:induction false} DoomedRun(svc: D.Service, s: System, events: seq<SysEvent>)
    requires SysInv(s) && Doomed(s) && SysRun(svc, s, events).Some?
    ensures var u := SysRun(svc, s, events).value;
      SysInv(u) && Doomed(u) && SameWire(s, u) && (Wedged(s) ==> Wedged(u))
    decreases |events|
  {
    hide SysInv, SysStep, Wedged, Doomed;
    if events != [] {
      SysStepKeeps(svc, s, events[0]);
      DoomedStays(svc, s, events[0]);
      DoomedRun(svc, SysStep(svc, s, events[0]).value, events[1..]);
    }
  }

  ghost predicate Releases(svc: D.Service, s: System, events: seq<SysEvent>) {
    SysRun(svc, s, events).Some? && SysRun(svc, s, events).value.writeLK.None?
  }

  /** What the holder `t` does on its way out: its own task keeps its answer, no other changes,
      what it writes can be decoded, and the client, the notice waiting and the registered
      channels are left alone. */
  ghost predicate WayOut(s: System, u: System, t: nat) {
    && t < |s.tasks| == |u.tasks|
    && u.client == s.client && u.read == s.read && u.pending == s.pending
    && s.down <= u.down && (forall j :: |s.down| <= j < |u.down| ==> u.down[j].Resp?)
    && (forall k :: 0 <= k < |s.tasks| && k != t ==> u.tasks[k] == s.tasks[k])
    && SameTask(s.tasks[t], u.tasks[t])
    && StillOpen(s.mux, u.mux)
  }

  ghost predicate SameTask(a: Task, b: Task) {
    && b.req == a.req && b.call == a.call && b.draft == a.draft
    && b.owesDone == a.owesDone && b.deferred == a.deferred
  }

  /** Every channel being received from still is, in some slot. */
  ghost predicate StillOpen(m: Mux.Trace, n: Mux.Trace) {
    && n.received == m.received
    && (forall id :: id in m.regs ==> id in n.regs && n.regs[id] == m.regs[id])
    && (forall id :: id in m.mux.caseToID ==> id in n.mux.caseToID)
  }

  ghost predicate Written(u: System, t: nat) {
    t < |u.tasks| && u.tasks[t].phase.Leaving? && u.down != [] && u.down[|u.down| - 1] == RespFrame(u.tasks[t])
  }

  lemma WayOutOn(s: System, u: System, v: System, t: nat)
    requires WayOut(s, u, t) && WayOut(u, v, t)
    ensures WayOut(s, v, t)
  {
    forall j | |s.down| <= j < |v.down| ensures v.down[j].Resp? {
      if j < |u.down| { assert v.down[j] == u.down[j]; }
    }
  }

  lemma HolderWayOut(svc: D.Service, s: System, e: SysEvent, t: nat)
    requires SysInv(s) && s.writeLK == Some(t) && OnTheWay(e, t) && (e.Flush? ==> e.encodes)
    requires SysStep(svc, s, e).Some?
    ensures var u := SysStep(svc, s, e).value; WayOut(s, u, t) && (e.Flush? ==> Written(u, t))
  {
    hide C.Inv, AnswersOk, Settled, StreamsOk;
  }

  /** The holder's next event; it leaves the lock or brings the holder one phase further. */
  lemma HolderStep(svc: D.Service, s: System) returns (e: SysEvent)
    requires SysInv(s) && s.writeLK.Some? && !Doomed(s)
    ensures SysStep(svc, s, e).Some?
    ensures var u := SysStep(svc, s, e).value;
      u.writeLK.None? || (u.writeLK == s.writeLK && !Doomed(u) && Distance(u) < Distance(s))
    ensures var u := SysStep(svc, s, e).value;
      WayOut(s, u, s.writeLK.value) && (u.writeLK.None? ==> Written(u, s.writeLK.value))
  {
    hide WayOut, Written, SysInv, StreamsOk, TasksOk, RespFrame, Flushed, Mux.Step;
    ServerPart(s);
    HolderIsLocked(s);
    var t := s.writeLK.value;
    match s.tasks[t].phase {
      case Locked => e := if Streams(s.tasks[t]) then Draw(t) else Flush(t, true);
      case Registering =>
        RegistrationAccepted(svc, s, t);
        e := Accept(t);
      case Registered => e := Flush(t, true);
    }
    HolderWayOut(svc, s, e, t);
  }

  /** How many phases the holder is away from its flush. */
  ghost function Distance(s: System): nat {
    if s.writeLK.None? || s.writeLK.value >= |s.tasks| then 0
    else match s.tasks[s.writeLK.value].phase
      case Locked => 2
      case Registering => 1
      case _ => 0
  }

  lemma {:induction false} CanRelease(svc: D.Service, s: System) returns (events: seq<SysEvent>)
    requires SysInv(s) && s.writeLK.Some? && !Doomed(s)
    ensures Releases(svc, s, events)
    ensures var u := SysRun(svc, s, events).value;
      SysInv(u) && WayOut(s, u, s.writeLK.value) && Written(u, s.writeLK.value)
    decreases Distance(s)
  {
    hide SysInv, SysStep, Doomed, Distance, WayOut, Written;
    var e := HolderStep(svc, s);
    var u := SysStep(svc, s, e).value;
    SysStepKeeps(svc, s, e);
    if u.writeLK.None? {
      OneStep(svc, s, e);
      events := [e];
    } else {
      var rest := CanRelease(svc, u);
      assert ([e] + rest)[1..] == rest;
      events := [e] + rest;
      WayOutOn(s, u, SysRun(svc, u, rest).value, s.writeLK.value);
    }
  }

  lemma OneStep(svc: D.Service, s: System, e: SysEvent)
    ensures SysRun(svc, s, [e]) == SysStep(svc, s, e)
  {
    hide SysStep;
    var next := SysStep(svc, s, e);
    if next.Some? { assert SysRun(svc, next.value, [e][1..]) == next; }
  }

  // ------------------------------------------------------------ main results

  /** Exactly when the lock's holder is stuck, in every interleaving: it has an event that can
      happen, and so comes nearer to its flush, if and only if the connection is not wedged. */
  lemma HolderMovesUnlessWedged(svc: D.Service, events: seq<SysEvent>)
    requires SysRun(svc, START_STATE, events).Some? && SysRun(svc, START_STATE, events).value.writeLK.Some?
    ensures var s := SysRun(svc, START_STATE, events).value;
      (HolderMoves(svc, s) <==> !Wedged(s)) && (Wedged(s) ==> Doomed(s))
  {
    hide SysInv, SysRun, HolderMoves;
    ChannelsReached(svc, events);
    HolderCanMove(svc, SysRun(svc, START_STATE, events).value);
  }

  /** Exactly when a held lock can ever be released, in every interleaving: some continuation
      releases it if and only if the holder is not doomed. */
  lemma ReleasedUnlessDoomed(svc: D.Service, events: seq<SysEvent>)
    requires SysRun(svc, START_STATE, events).Some? && SysRun(svc, START_STATE, events).value.writeLK.Some?
    ensures var s := SysRun(svc, START_STATE, events).value;
      (exists more :: Releases(svc, s, more)) <==> !Doomed(s)
  {
    hide SysInv, SysRun, Doomed;
    ChannelsReached(svc, events);
    var s := SysRun(svc, START_STATE, events).value;
    if Doomed(s) {
      forall more | SysRun(svc, s, more).Some? ensures !Releases(svc, s, more) {
        DoomedRun(svc, s, more);
      }
    } else {
      var more := CanRelease(svc, s);
    }
  }

  /** A doomed holder wedges the connection for good: whatever follows, nothing is ever written
      again, the lock stays with its holder, a wedge stays one, and a call whose response is
      not on the wire by then is never answered. */
  lemma WedgedForever(svc: D.Service, events: seq<SysEvent>, more: seq<SysEvent>, id: Id)
    requires SysRun(svc, START_STATE, events).Some? && Doomed(SysRun(svc, START_STATE, events).value)
    requires SysRun(svc, SysRun(svc, START_STATE, events).value, more).Some?
    ensures var s := SysRun(svc, START_STATE, events).value;
      var u := SysRun(svc, s, more).value;
      && Doomed(u) && SameWire(s, u) && (Wedged(s) ==> Wedged(u))
      && ((forall j :: 0 <= j < |s.down| && s.down[j].Resp? ==> s.down[j].id != id) ==>
            forall r :: r in C.RepliesTo(u.client.conn, id) ==> r.ConnectionClosed?)
  {
    hide SysInv, SysRun, Wedged, Doomed;
    ChannelsReached(svc, events);
    var s := SysRun(svc, START_STATE, events).value;
    DoomedRun(svc, s, more);
    NotOnWireUnanswered(SysRun(svc, s, more).value, id);
  }

  lemma NotOnWireUnanswered(s: System, id: Id)
    requires SysInv(s)
    ensures (forall j :: 0 <= j < |s.down| && s.down[j].Resp? ==> s.down[j].id != id) ==>
      forall r :: r in C.RepliesTo(s.client.conn, id) ==> r.ConnectionClosed?
  {
    hide TasksOk, StreamsOk, Settled, C.RepliesTo;
    forall r | r in C.RepliesTo(s.client.conn, id) && r.Answer?
      ensures exists j :: 0 <= j < |s.down| && s.down[j].Resp? && s.down[j].id == id
    {
      assert r.id == id && FromWire(s, r);
    }
  }

  // ------------------------------------------------------- it happens

  const TICKS := "T.Ticks"

  /** A service with one method, without parameters, that returns a channel. */
  function Ticker(): D.Service {
    D.Service(map[TICKS := D.Handler([], 0, D.FuncType([D.Other("T")], [D.ChanType]), 0, -1, 0)],
              (typ: D.GoType, v: Value) => None,
              (name: string, args: seq<D.Arg>, r: D.Result) => r.Returned?)
  }

  /** Two callers of that method make their calls, and the server reads them. */
  const CALLERS: seq<C.Event> :=
    [C.BeginCall(C.Call(TICKS, [], true)), C.BeginCall(C.Call(TICKS, [], true)), C.Enqueue(1), C.Enqueue(2),
     C.Take, C.Take]

  function OfCallers(events: seq<C.Event>): seq<SysEvent> {
    seq(|events|, i requires 0 <= i < |events| => OfClient(events[i]))
  }

  function Handled(t: nat, ch: Mux.Chan): seq<SysEvent> {
    [Dispatch(t), MethodReturns(t, D.Returned(D.Chan(ch), None))]
  }

  /** The first call is answered; the second has drawn its channel id when the first channel
      yields a value. */
  const ANSWERED: seq<SysEvent> := [Lock(0), Draw(0), Accept(0), Flush(0, true)]
  const STUCK: seq<SysEvent> := [Lock(1), Draw(1), MuxValue(1, Number(7))]

  /** A call whose method has returned a channel. */
  function Returned(id: Id, ch: Mux.Chan): Task {
    var result := D.Returned(D.Chan(ch), None);
    Task(Request(id, TICKS, []), Ready, Some(D.Invocation([D.Receiver], result)), Some(D.Draft(D.Chan(ch), None)),
         None, false, [true], [])
  }

  lemma {:induction false} RunAppend(svc: D.Service, s: System, a: seq<SysEvent>, b: seq<SysEvent>)
    requires SysRun(svc, s, a).Some?
    ensures SysRun(svc, s, a + b) == SysRun(svc, SysRun(svc, s, a).value, b)
    decreases |a|
  {
    hide SysStep;
    if a == [] {
      assert a + b == b;
    } else {
      assert (a + b)[1..] == a[1..] + b;
      RunAppend(svc, SysStep(svc, s, a[0]).value, a[1..], b);
    }
  }

  /** Callers and their loop run by themselves until a frame comes in. */
  lemma {:induction false} CallersRun(svc: D.Service, s: System, events: seq<C.Event>)
    requires C.Run(s.client, events).Some? && forall i :: 0 <= i < |events| ==> !events[i].Incoming?
    ensures SysRun(svc, s, OfCallers(events)) == Some(s.(client := C.Run(s.client, events).value))
    decreases |events|
  {
    hide C.Step;
    if events != [] {
      assert OfCallers(events)[1..] == OfCallers(events[1..]);
      CallersRun(svc, s.(client := C.Step(s.client, events[0]).value), events[1..]);
    }
  }

  lemma TwoTaken()
    ensures var c := C.Run(C.INIT, CALLERS);
      c.Some? && c.value.taken == [Request(1, TICKS, []), Request(2, TICKS, [])]
  {
    hide CallName, C.Run;
    assert CallName(TICKS) by { TicksIsCall(); }
    assert CALLERS[0..] == CALLERS;
    var c1 := NextCaller(C.INIT, 0);
    var c2 := NextCaller(c1, 1);
    var c3 := NextCaller(c2, 2);
    var c4 := NextCaller(c3, 3);
    var c5 := NextCaller(c4, 4);
    var c6 := NextCaller(c5, 5);
    assert C.Run(c6, CALLERS[6..]) == Some(c6) by { NothingLeft(c6); }
  }

  /** The state after one of the callers' events. */
  ghost function NextCaller(c: C.Client, i: nat): (d: C.Client)
    requires i < |CALLERS| && C.Step(c, CALLERS[i]).Some?
    ensures C.Run(c, CALLERS[i..]) == C.Run(d, CALLERS[i + 1..])
  {
    assert CALLERS[i..][1..] == CALLERS[i + 1..];
    C.Step(c, CALLERS[i]).value
  }

  lemma NothingLeft(c: C.Client)
    ensures C.Run(c, CALLERS[6..]) == Some(c)
  {
    assert CALLERS[6..] == [];
  }

  lemma TicksIsCall()
    ensures CallName(TICKS)
  {
    assert |TICKS| == 7;
  }

  lemma HandledRun(s: System, t: nat, id: Id, ch: Mux.Chan)
    requires t < |s.tasks| && s.tasks[t] == NewTask(Request(id, TICKS, []))
    ensures SysRun(Ticker(), s, Handled(t, ch)) == Some(SetTask(s, t, Returned(id, ch)))
  {
    hide SysRun;
    assert D.Begin(Ticker(), s.tasks[t].req) == D.Invoking([D.Receiver]);
    var s1 := SysStep(Ticker(), s, Dispatch(t)).value;
    var s2 := SysStep(Ticker(), s1, MethodReturns(t, D.Returned(D.Chan(ch), None))).value;
    assert s2.tasks == s.tasks[t := Returned(id, ch)];
    TwoSteps(Ticker(), s, Dispatch(t), MethodReturns(t, D.Returned(D.Chan(ch), None)));
  }

  lemma TwoSteps(svc: D.Service, s: System, a: SysEvent, b: SysEvent)
    ensures SysRun(svc, s, [a, b]) ==
            if SysStep(svc, s, a).None? then None else SysStep(svc, SysStep(svc, s, a).value, b)
  {
    hide SysStep;
    assert [a, b][1..] == [b] && [b][1..] == [];
    var next := SysStep(svc, s, a);
    if next.Some? {
      assert SysRun(svc, next.value, [b]) == SysStep(svc, next.value, b) by {
        OneStep(svc, next.value, b);
      }
    }
  }

  /** Task 0 has been answered over channel id 1 and its channel is registered. */
  predicate FirstAnswered(s: System, u: System) {
    && |u.tasks| == |s.tasks| == 2 && u.tasks[1] == s.tasks[1]
    && u.writeLK.None? && u.pending.None? && |u.down| == 1
    && u.mux == Mux.FRESH.(mux := Mux.Mux([Mux.Control, Mux.Out(10)], [1]), regs := map[1 := 10])
  }

  lemma DrawnRun(s: System)
    requires |s.tasks| == 2 && s.tasks[0] == Returned(1, 10) && s.writeLK.None? && s.chanCtr == 0
    ensures SysRun(Ticker(), s, [Lock(0), Draw(0)]) ==
            Some(s.(writeLK := Some(0), chanCtr := 1,
                    tasks := s.tasks[0 := Returned(1, 10).(phase := Registering, chan := Some(1))]))
  {
    hide SysRun;
    var s1 := SysStep(Ticker(), s, Lock(0)).value;
    assert s1.tasks[0 := Returned(1, 10).(phase := Registering, chan := Some(1))] ==
           s.tasks[0 := Returned(1, 10).(phase := Registering, chan := Some(1))];
    TwoSteps(Ticker(), s, Lock(0), Draw(0));
  }

  lemma FlushedRun(s: System)
    requires |s.tasks| == 2 && s.tasks[0] == Returned(1, 10).(phase := Registering, chan := Some(1))
    requires s.mux == Mux.FRESH && s.pending.None? && s.down == []
    ensures var r := SysRun(Ticker(), s, [Accept(0), Flush(0, true)]);
      r.Some? && FirstAnswered(s, r.value)
  {
    hide SysRun;
    TwoSteps(Ticker(), s, Accept(0), Flush(0, true));
  }

  lemma AnsweredRun(s: System)
    requires |s.tasks| == 2 && s.tasks[0] == Returned(1, 10)
    requires s.writeLK.None? && s.mux == Mux.FRESH && s.pending.None? && s.down == [] && s.chanCtr == 0
    ensures SysRun(Ticker(), s, ANSWERED).Some? && FirstAnswered(s, SysRun(Ticker(), s, ANSWERED).value)
  {
    hide SysRun, SysStep;
    DrawnRun(s);
    FlushedRun(SysRun(Ticker(), s, [Lock(0), Draw(0)]).value);
    RunAppend(Ticker(), s, [Lock(0), Draw(0)], [Accept(0), Flush(0, true)]);
    assert ANSWERED == [Lock(0), Draw(0)] + [Accept(0), Flush(0, true)];
  }

  lemma StuckRun(before: System, s: System)
    requires FirstAnswered(before, s) && s.tasks[1] == Returned(2, 20)
    ensures var r := SysRun(Ticker(), s, STUCK); r.Some? && Wedged(r.value) && r.value.down == s.down
  {
  }

  /** Two streaming calls suffice to wedge a connection: the first is answered, the second
      never will be. */
  lemma TwoStreamsWedge()
    ensures var r := SysRun(Ticker(), START_STATE,
                            OfCallers(CALLERS) + [ServerReads, ServerReads] + Handled(0, 10) + Handled(1, 20) +
                            ANSWERED + STUCK);
      r.Some? && Wedged(r.value) && |r.value.down| == 1
  {
    hide SysRun, SysStep, Wedged, C.Run;
    var svc, frames := Ticker(), [ServerReads, ServerReads];
    TwoTaken();
    CallersRun(svc, START_STATE, CALLERS);
    var s1 := START_STATE.(client := C.Run(C.INIT, CALLERS).value);
    ReadsRun(s1);
    var s2 := SysRun(svc, s1, frames).value;
    HandledRun(s2, 0, 1, 10);
    var s3 := SetTask(s2, 0, Returned(1, 10));
    HandledRun(s3, 1, 2, 20);
    var s4 := SetTask(s3, 1, Returned(2, 20));
    AnsweredRun(s4);
    var s5 := SysRun(svc, s4, ANSWERED).value;
    StuckRun(s4, s5);
    var a := OfCallers(CALLERS);
    RunAppend(svc, START_STATE, a, frames);
    RunAppend(svc, START_STATE, a + frames, Handled(0, 10));
    RunAppend(svc, START_STATE, a + frames + Handled(0, 10), Handled(1, 20));
    RunAppend(svc, START_STATE, a + frames + Handled(0, 10) + Handled(1, 20), ANSWERED);
    RunAppend(svc, START_STATE, a + frames + Handled(0, 10) + Handled(1, 20) + ANSWERED, STUCK);
  }

  lemma ReadsRun(s: System)
    requires s.tasks == [] && s.client.taken == [Request(1, TICKS, []), Request(2, TICKS, [])]
    ensures var r := SysRun(Ticker(), s, [ServerReads, ServerReads]);
      r.Some? && r.value == s.(tasks := [NewTask(Request(1, TICKS, [])), NewTask(Request(2, TICKS, []))],
                               handling := r.value.handling)
  {
    hide SysRun;
    TwoSteps(Ticker(), s, ServerReads, ServerReads);
  }
}
