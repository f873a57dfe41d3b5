/** The whole connection: callers and the client's event loop, a FIFO wire each way, the
    server's handlers running concurrently, its write lock, and the goroutine that
    multiplexes output channels. */
module RpcSystem {
  import opened Words
  import opened RpcMessages
  import Mux = OutChanMux
  import C = RpcClient
  import D = Dispatch

  // ------------------------------------------------------------------- server

  /** Where the goroutine that handles a call stands: not begun, inside the method, ready to
      write its response, holding the write lock, having drawn a channel id and offering the
      registration, registered but not yet flushed, past its write with `done` still to be
      called, returned. */
  datatype Phase = Running | Calling(args: seq<D.Arg>) | Ready | Locked | Registering | Registered | Leaving | Done

  /** A call being handled: its request, the method call it made, its response, the channel id
      it drew, the explicit and deferred calls of `done` it still owes, and what it did. */
  datatype Task = Task(
    req: Request,
    phase: Phase,
    call: Option<D.Invocation>,
    draft: Option<D.Draft>,
    chan: Option<ChanId>,
    owesDone: bool,
    deferred: seq<bool>,
    trace: seq<D.Effect>)

  function NewTask(req: Request): Task {
    Task(req, Running, None, None, None, false, [], [])
  }

  /** What the server writes: responses, channel notifications, or the empty message left
      by a response that cannot be encoded. */
  datatype Wire = Resp(id: Id, result: Option<Value>, error: Option<RespError>)
                | Notify(notice: Mux.Notice)
                | Garbage

  /** `client.taken` is everything written upstream and `tasks` has one entry per request
      read from it; `handling` holds the calls that can be cancelled; `down` is everything
      written downstream and `read` how much of it the client has read. */
  datatype System = System(
    client: C.Client,
    read: nat,
    tasks: seq<Task>,
    handling: set<Id>,
    writeLK: Option<nat>,
    chanCtr: ChanId,
    mux: Mux.Trace,
    pending: Option<Mux.Notice>,
    down: seq<Wire>)

  const START_STATE: System := System(C.INIT, 0, [], {}, None, 0, Mux.FRESH, None, [])

  function ResponseOf(t: Task): D.Response
    requires t.draft.Some?
  {
    D.Respond(t.req.id, t.draft.value, t.chan)
  }

  /** The response built from a task. */
  function RespFrame(t: Task): Wire {
    if t.draft.None? then Garbage
    else
      var r := ResponseOf(t);
      Resp(r.id, r.result, r.error)
  }

  /** A notification's parameters travel without data. */
  function ToFrame(w: Wire): Frame
    requires !w.Garbage?
  {
    match w
    case Resp(id, result, error) => Frame(Some(id), "", [], result, error)
    case Notify(ChVal(_, _)) => Frame(None, CH_VALUE, [None, None], None, None)
    case Notify(ChClose(_)) => Frame(None, CH_CLOSE, [None], None, None)
  }

  datatype SysEvent =
    | OfClient(event: C.Event)
    | ClientReads
    | ServerReads
    | Dispatch(task: nat)
    | MethodReturns(task: nat, result: D.Result)
    | Lock(task: nat)
    | Draw(task: nat)
    | Accept(task: nat)
    | Flush(task: nat, encodes: bool)
    | CallDone(task: nat)
    | RunDeferred(task: nat)
    | Finish(task: nat)
    | MuxValue(chosen: nat, value: Value)
    | MuxClosed(chosen: nat)
    | MuxWrite

  function SetPhase(s: System, t: nat, p: Phase): System
    requires t < |s.tasks|
  {
    s.(tasks := s.tasks[t := s.tasks[t].(phase := p)])
  }

  function SetTask(s: System, t: nat, task: Task): System
    requires t < |s.tasks|
  {
    s.(tasks := s.tasks[t := task])
  }

  /** Lookup, parameter count and decoding. An early refusal is followed by an explicit call of
      `done`; past the two checks the call is deferred instead. */
  function Dispatched(svc: D.Service, t: Task): Task {
    match D.Begin(svc, t.req)
    case Refused(draft, early) =>
      t.(phase := Ready, draft := Some(draft), owesDone := early,
         deferred := if early then [] else [D.Keeps(svc.handlers, t.req)])
    case Invoking(args) =>
      t.(phase := Calling(args), deferred := [D.Keeps(svc.handlers, t.req)])
  }

  /** The method returns or panics. */
  function Concluded(svc: D.Service, t: Task, r: D.Result): Task
    requires t.phase.Calling? && t.req.name in svc.handlers
  {
    t.(phase := Ready, call := Some(D.Invocation(t.phase.args, r)), draft := Some(D.Conclude(svc, t.req, r)))
  }

  function Flushed(t: Task, encodes: bool): Task {
    t.(phase := Leaving,
       trace := t.trace + [if encodes && t.draft.Some? then D.Wrote(ResponseOf(t)) else D.EncodeFailed])
  }

  function DoneCalled(t: Task): Task {
    t.(owesDone := false, trace := t.trace + [D.CalledDone(false)])
  }

  function DeferredRun(t: Task): Task
    requires t.deferred != []
  {
    var n := |t.deferred| - 1;
    t.(deferred := t.deferred[..n], trace := t.trace + [D.CalledDone(t.deferred[n])])
  }

  predicate At(s: System, t: nat, p: Phase) {
    t < |s.tasks| && s.tasks[t].phase == p
  }

  predicate Streams(t: Task) {
    t.draft.Some? && t.draft.value.result.Chan?
  }

  /** The loop reads one frame; a message that does not decode makes it leave. */
  function ClientRead(s: System): Option<System> {
    if s.read >= |s.down| then None
    else
      var w := s.down[s.read];
      var next := C.Step(s.client, if w.Garbage? then C.Leave else C.Incoming(ToFrame(w)));
      if next.None? then None else Some(s.(client := next.value, read := s.read + 1))
  }

  /** The registration a streaming task offers. */
  function Registers(t: Task): Mux.Event
    requires t.chan.Some? && Streams(t)
  {
    Mux.Registration(t.chan.value, t.draft.value.result.ch)
  }

  /** The multiplexer selects a value or a closed channel and turns to writing its notice. */
  function MuxSelects(s: System, e: Mux.Event): Option<System>
    requires !e.Registration?
  {
    var next := Mux.Step(s.mux, e);
    if s.pending.Some? || next.None? then None
    else Some(s.(mux := next.value, pending := Some(next.value.notices[|s.mux.notices|])))
  }

  /** The state after an event, `None` when it cannot happen. The registration channel is
      unbuffered: handler and multiplexer meet when the latter is selecting. */
  function SysStep(svc: D.Service, s: System, e: SysEvent): Option<System> {
    match e
    case OfClient(ev) =>
      if ev.Incoming? then None
      else
        var next := C.Step(s.client, ev);
        if next.None? then None else Some(s.(client := next.value))
    case ClientReads => ClientRead(s)
    case ServerReads =>
      if |s.tasks| < |s.client.taken|
      then
        var req := s.client.taken[|s.tasks|];
        Some(s.(tasks := s.tasks + [NewTask(req)], handling := s.handling + {req.id}))
      else None
    case Dispatch(t) =>
      if At(s, t, Running) then Some(SetTask(s, t, Dispatched(svc, s.tasks[t]))) else None
    case MethodReturns(t, r) =>
      if t < |s.tasks| && s.tasks[t].phase.Calling? && s.tasks[t].req.name in svc.handlers &&
         svc.behaves(s.tasks[t].req.name, s.tasks[t].phase.args, r)
      then Some(SetTask(s, t, Concluded(svc, s.tasks[t], r)))
      else None
    case Lock(t) =>
      if At(s, t, Ready) && s.writeLK.None? then Some(SetPhase(s, t, Locked).(writeLK := Some(t))) else None
    case Draw(t) =>
      if At(s, t, Locked) && Streams(s.tasks[t])
      then Some(s.(chanCtr := s.chanCtr + 1,
                   tasks := s.tasks[t := s.tasks[t].(phase := Registering, chan := Some(s.chanCtr + 1))]))
      else None
    case Accept(t) =>
      if At(s, t, Registering) && s.pending.None? && s.tasks[t].chan.Some? && Streams(s.tasks[t])
      then
        var next := Mux.Step(s.mux, Registers(s.tasks[t]));
        if next.None? then None else Some(SetPhase(s, t, Registered).(mux := next.value))
      else None
    case Flush(t, encodes) =>
      if (At(s, t, Registered) && encodes) || (At(s, t, Locked) && !Streams(s.tasks[t]))
      then Some(SetTask(s, t, Flushed(s.tasks[t], encodes)).(
                  writeLK := None,
                  down := s.down + [if encodes then RespFrame(s.tasks[t]) else Garbage]))
      else None
    case CallDone(t) =>
      if At(s, t, Leaving) && s.tasks[t].owesDone
      then Some(SetTask(s, t, DoneCalled(s.tasks[t])).(handling := s.handling - {s.tasks[t].req.id}))
      else None
    case RunDeferred(t) =>
      if At(s, t, Leaving) && !s.tasks[t].owesDone && s.tasks[t].deferred != []
      then
        var keep := s.tasks[t].deferred[|s.tasks[t].deferred| - 1];
        Some(SetTask(s, t, DeferredRun(s.tasks[t])).(
               handling := if keep then s.handling else s.handling - {s.tasks[t].req.id}))
      else None
    case Finish(t) =>
      if At(s, t, Leaving) && !s.tasks[t].owesDone && s.tasks[t].deferred == []
      then Some(SetPhase(s, t, Done)) else None
    case MuxValue(chosen, v) => MuxSelects(s, Mux.Receive(chosen, v))
    case MuxClosed(chosen) => MuxSelects(s, Mux.Closed(chosen))
    case MuxWrite =>
      if s.pending.Some? && s.writeLK.None?
      then Some(s.(down := s.down + [Notify(s.pending.value)], pending := None))
      else None
  }

  function SysRun(svc: D.Service, s: System, events: seq<SysEvent>): Option<System>
    decreases |events|
  {
    if events == [] then Some(s)
    else
      var next := SysStep(svc, s, events[0]);
      if next.None? then None else SysRun(svc, next.value, events[1..])
  }

  // ------------------------------------------------------------------ invariant

  predicate Undecided(p: Phase) {
    p.Running? || p.Calling?
  }

  /** Past the write of the response. */
  predicate Past(p: Phase) {
    p.Leaving? || p.Done?
  }

  predicate Holds(p: Phase) {
    p.Locked? || p.Registering? || p.Registered?
  }

  /** Tasks run requests read in order; the lock's holder is the one task in a locked
      phase; only a streaming task has a channel id, and it got it under the lock. */
  ghost predicate TasksOk(s: System) {
    && |s.tasks| <= |s.client.taken|
    && (s.writeLK.Some? ==> s.writeLK.value < |s.tasks|)
    && (forall t :: 0 <= t < |s.tasks| ==> s.tasks[t].req == s.client.taken[t])
    && (forall t :: 0 <= t < |s.tasks| ==> (s.tasks[t].draft.None? <==> Undecided(s.tasks[t].phase)))
    && (forall t :: 0 <= t < |s.tasks| && s.tasks[t].chan.Some? ==>
          Streams(s.tasks[t]) && s.tasks[t].chan.value <= s.chanCtr)
    && (forall t :: 0 <= t < |s.tasks| ==> (Holds(s.tasks[t].phase) <==> s.writeLK == Some(t)))
    && (forall t :: 0 <= t < |s.tasks| && (s.tasks[t].phase.Registering? || s.tasks[t].phase.Registered?) ==>
          s.tasks[t].chan == Some(s.chanCtr))
  }

  /** Some task's flushed response is exactly `w`. */
  ghost predicate Backed(s: System, w: Wire) {
    exists t :: 0 <= t < |s.tasks| && Past(s.tasks[t].phase) && RespFrame(s.tasks[t]) == w
  }

  /** The client has read a response that carries exactly this answer. */
  ghost predicate FromWire(s: System, r: C.Reply) {
    r.Answer? && exists j :: 0 <= j < s.read && j < |s.down| && s.down[j] == Resp(r.id, r.result, r.error)
  }

  /** Responses on the wire come from finished tasks, no two bear the same id, and delivered
      answers come from the wire. */
  ghost predicate AnswersOk(s: System) {
    && s.read <= |s.down|
    && (forall j :: 0 <= j < |s.down| && s.down[j].Resp? ==> Backed(s, s.down[j]))
    && (forall i, j :: 0 <= i < j < |s.down| && s.down[i].Resp? && s.down[j].Resp? ==>
          s.down[i].id != s.down[j].id)
    && (forall id, r :: r in C.RepliesTo(s.client.conn, id) && r.Answer? ==> FromWire(s, r))
  }

  /** A response whose result a streaming caller cannot use: it is no channel id. */
  ghost predicate Unusable(c: C.Client, w: Wire) {
    w.Resp? && w.id in c.calls && c.calls[w.id].sink && w.result.Some? && w.result.value.Json?
  }

  ghost predicate DeliveredTo(c: C.Client, w: Wire) {
    w.Resp? && C.RepliesTo(c.conn, w.id) == [C.Answer(w.id, w.result, w.error)]
  }

  /** Every response the client has read reached its caller or was unusable to it. */
  ghost predicate Settled(s: System) {
    forall j :: 0 <= j < s.read && j < |s.down| && s.down[j].Resp? ==>
      DeliveredTo(s.client, s.down[j]) || Unusable(s.client, s.down[j])
  }

  /** A finished task with channel id `id` has written its response at position `i`. */
  ghost predicate AnnouncedAt(s: System, i: nat, id: ChanId) {
    i < |s.down| &&
    exists t :: 0 <= t < |s.tasks| && Past(s.tasks[t].phase) && s.tasks[t].chan == Some(id) &&
      RespFrame(s.tasks[t]) == s.down[i]
  }

  ghost predicate Announced(s: System, before: nat, id: ChanId) {
    exists i :: 0 <= i < before && AnnouncedAt(s, i, id)
  }

  /** The lock is held by a task that has registered `id` and not yet flushed. */
  ghost predicate BeingAnnounced(s: System, id: ChanId) {
    s.writeLK.Some? && At(s, s.writeLK.value, Registered) && s.tasks[s.writeLK.value].chan == Some(id)
  }

  ghost predicate StreamsOk(s: System) {
    && Mux.Consistent(s.mux)
    && (forall id :: id in s.mux.regs ==> id <= s.chanCtr)
    && (forall t :: 0 <= t < |s.tasks| && s.tasks[t].phase.Registering? ==> s.chanCtr !in s.mux.regs)
    && (forall id :: id in s.mux.regs ==> Announced(s, |s.down|, id) || BeingAnnounced(s, id))
    && (s.pending.Some? ==> s.pending.value.id in s.mux.regs)
    && (forall j :: 0 <= j < |s.down| && s.down[j].Notify? ==> Announced(s, j, s.down[j].notice.id))
  }

  ghost predicate SysInv(s: System) {
    C.Inv(s.client) && TasksOk(s) && AnswersOk(s) && Settled(s) && StreamsOk(s)
  }

  // ------------------------------------------------- facts that are never lost

  ghost predicate SameAnswer(a: Task, b: Task) {
    Past(b.phase) && b.req == a.req && b.draft == a.draft && b.chan == a.chan
  }

  /** What is written stays written, and a task past its write never changes its answer. */
  ghost predicate Grows(s: System, u: System) {
    && s.down <= u.down
    && |s.tasks| <= |u.tasks|
    && forall t :: 0 <= t < |s.tasks| && Past(s.tasks[t].phase) ==> SameAnswer(s.tasks[t], u.tasks[t])
  }

  lemma BackedGrows(s: System, u: System, w: Wire)
    requires Grows(s, u) && Backed(s, w)
    ensures Backed(u, w)
  {
    var t :| 0 <= t < |s.tasks| && Past(s.tasks[t].phase) && RespFrame(s.tasks[t]) == w;
    assert SameAnswer(s.tasks[t], u.tasks[t]);
  }

  lemma AnnouncedGrows(s: System, u: System, before: nat, later: nat, id: ChanId)
    requires Grows(s, u) && Announced(s, before, id) && before <= later
    ensures Announced(u, later, id)
  {
    var i :| 0 <= i < before && AnnouncedAt(s, i, id);
    var t :| 0 <= t < |s.tasks| && Past(s.tasks[t].phase) && s.tasks[t].chan == Some(id) &&
             RespFrame(s.tasks[t]) == s.down[i];
    assert SameAnswer(s.tasks[t], u.tasks[t]) && u.down[i] == s.down[i];
    assert AnnouncedAt(u, i, id);
  }

  lemma AnswersGrow(s: System, u: System)
    requires AnswersOk(s) && Grows(s, u) && s.read <= u.read <= |u.down|
    requires forall j :: |s.down| <= j < |u.down| && u.down[j].Resp? ==>
      Backed(u, u.down[j]) && forall i :: 0 <= i < j && u.down[i].Resp? ==> u.down[i].id != u.down[j].id
    requires forall id, r :: r in C.RepliesTo(u.client.conn, id) && r.Answer? ==>
      r in C.RepliesTo(s.client.conn, id) || FromWire(u, r)
    ensures AnswersOk(u)
  {
    hide Backed, C.RepliesTo;
    forall j | 0 <= j < |u.down| && u.down[j].Resp? ensures Backed(u, u.down[j]) {
      if j < |s.down| { BackedGrows(s, u, s.down[j]); }
    }
    forall id, r | r in C.RepliesTo(u.client.conn, id) && r.Answer? ensures FromWire(u, r) {
      if r in C.RepliesTo(s.client.conn, id) {
        var j :| 0 <= j < s.read && j < |s.down| && s.down[j] == Resp(r.id, r.result, r.error);
        assert u.down[j] == s.down[j];
      }
    }
  }

  lemma SettledGrows(s: System, u: System)
    requires Settled(s) && s.read <= |s.down| && s.down <= u.down && u.read == s.read && u.client == s.client
    ensures Settled(u)
  {
    forall j | 0 <= j < u.read && j < |u.down| && u.down[j].Resp?
      ensures DeliveredTo(u.client, u.down[j]) || Unusable(u.client, u.down[j])
    {
      assert u.down[j] == s.down[j];
    }
  }

  /** What was settled stays settled whatever the client does next. */
  lemma SettledStable(s: System, e: C.Event, w: Wire)
    requires C.Inv(s.client) && C.Step(s.client, e).Some?
    requires DeliveredTo(s.client, w) || Unusable(s.client, w)
    ensures DeliveredTo(C.Step(s.client, e).value, w) || Unusable(C.Step(s.client, e).value, w)
  {
    hide C.Inv, C.Step, C.RepliesTo;
    if DeliveredTo(s.client, w) {
      C.RepliesStable(s.client, e, w.id);
    } else {
      C.CallsStable(s.client, e, w.id);
    }
  }

  lemma NoticesGrow(s: System, u: System)
    requires StreamsOk(s) && Grows(s, u)
    ensures forall j :: 0 <= j < |s.down| && u.down[j].Notify? ==> Announced(u, j, u.down[j].notice.id)
    ensures forall id :: Announced(s, |s.down|, id) ==> Announced(u, |u.down|, id)
  {
    hide Announced, Mux.Consistent;
    forall j | 0 <= j < |s.down| && u.down[j].Notify? ensures Announced(u, j, u.down[j].notice.id) {
      assert u.down[j] == s.down[j];
      AnnouncedGrows(s, u, j, j, s.down[j].notice.id);
    }
    forall id | Announced(s, |s.down|, id) ensures Announced(u, |u.down|, id) {
      AnnouncedGrows(s, u, |s.down|, |u.down|, id);
    }
  }

  /** Streams are unaffected by a change that writes nothing and leaves the multiplexer and
      every task in a locked phase alone. */
  lemma StreamsGrow(s: System, u: System)
    requires StreamsOk(s) && Grows(s, u) && u.down == s.down
    requires u.mux == s.mux && u.pending == s.pending && s.chanCtr <= u.chanCtr
    requires forall t :: 0 <= t < |u.tasks| && u.tasks[t].phase.Registering? ==> u.chanCtr !in u.mux.regs
    requires forall id :: BeingAnnounced(s, id) ==> BeingAnnounced(u, id)
    ensures StreamsOk(u)
  {
    hide Announced, Mux.Consistent, BeingAnnounced;
    NoticesGrow(s, u);
  }

  lemma TakenGrows(c: C.Client, e: C.Event)
    requires C.Step(c, e).Some?
    ensures c.taken <= C.Step(c, e).value.taken
  {
  }

  /** Only an incoming frame can put an answer on a reply channel. */
  lemma NoNewAnswers(c: C.Client, e: C.Event)
    requires C.Step(c, e).Some? && !e.Incoming?
    ensures forall id, r :: r in C.RepliesTo(C.Step(c, e).value.conn, id) && r.Answer? ==> r in C.RepliesTo(c.conn, id)
  {
  }

  lemma OfClientKeeps(svc: D.Service, s: System, e: C.Event)
    requires SysInv(s) && SysStep(svc, s, OfClient(e)).Some?
    ensures SysInv(SysStep(svc, s, OfClient(e)).value)
  {
    hide C.Step, C.Inv, StreamsOk, AnswersOk, DeliveredTo, Unusable, TasksOk, FromWire;
    var u := SysStep(svc, s, OfClient(e)).value;
    ReadInRange(s);
    C.StepKeeps(s.client, e);
    TakenGrows(s.client, e);
    NoNewAnswers(s.client, e);
    forall j | 0 <= j < u.read && j < |u.down| && u.down[j].Resp?
      ensures DeliveredTo(u.client, u.down[j]) || Unusable(u.client, u.down[j])
    {
      SettledStable(s, e, s.down[j]);
    }
    ClientOnlyKeeps(s, u);
  }

  /** A change of the client alone that adds only answers it has read. */
  lemma ClientOnlyKeeps(s: System, u: System)
    requires SysInv(s) && C.Inv(u.client) && Settled(u) && u == s.(client := u.client, read := u.read)
    requires s.read <= u.read <= |s.down| && s.client.taken <= u.client.taken
    requires forall id, r :: r in C.RepliesTo(u.client.conn, id) && r.Answer? ==>
      r in C.RepliesTo(s.client.conn, id) || FromWire(u, r)
    ensures SysInv(u)
  {
    hide C.Inv, StreamsOk, Backed, C.RepliesTo, AnswersOk, Settled, FromWire;
    AnswersGrow(s, u);
    forall id | BeingAnnounced(s, id) ensures BeingAnnounced(u, id) {}
    RegisteringFresh(s);
    StreamsGrow(s, u);
  }

  lemma ReadInRange(s: System)
    requires AnswersOk(s)
    ensures s.read <= |s.down|
  {
  }

  lemma RegisteringFresh(s: System)
    requires StreamsOk(s)
    ensures forall t :: 0 <= t < |s.tasks| && s.tasks[t].phase.Registering? ==> s.chanCtr !in s.mux.regs
  {
  }

  /** The answer a response frame puts on a reply channel is the response itself. */
  lemma IncomingAnswers(c: C.Client, w: Wire)
    requires C.Inv(c) && !w.Garbage? && C.Step(c, C.Incoming(ToFrame(w))).Some?
    ensures forall id, r ::
      r in C.RepliesTo(C.Step(c, C.Incoming(ToFrame(w))).value.conn, id) && r.Answer? ==>
        r in C.RepliesTo(c.conn, id) || (w.Resp? && Resp(r.id, r.result, r.error) == w)
  {
    if w.Resp? { C.ResponseEffect(c, ToFrame(w)); }
  }

  /** The response about to be read answers a taken request that has no reply yet. */
  lemma NextResponseIsOwed(s: System)
    requires C.Inv(s.client) && TasksOk(s) && AnswersOk(s) && s.client.loop.Serving?
    requires s.read < |s.down| && s.down[s.read].Resp?
    ensures C.Taken(s.client, s.down[s.read].id) && C.RepliesTo(s.client.conn, s.down[s.read].id) == []
  {
    var w := s.down[s.read];
    var t :| 0 <= t < |s.tasks| && Past(s.tasks[t].phase) && RespFrame(s.tasks[t]) == w;
    assert s.client.taken[t].id == w.id;
    var rs := C.RepliesTo(s.client.conn, w.id);
    assert rs != [] ==> rs[0] in rs;
    forall r | r in rs ensures r.ConnectionClosed? {
      if r.Answer? { NotReadYet(s, r); }
    }
  }

  lemma NotReadYet(s: System, r: C.Reply)
    requires AnswersOk(s) && s.read < |s.down| && s.down[s.read].Resp?
    requires r.Answer? && r.id == s.down[s.read].id
    ensures !FromWire(s, r)
  {
  }

  lemma ClientReadsKeeps(svc: D.Service, s: System)
    requires SysInv(s) && SysStep(svc, s, ClientReads).Some?
    ensures SysInv(SysStep(svc, s, ClientReads).value)
  {
    hide C.Step, C.Inv, StreamsOk, Backed, C.RepliesTo, TasksOk, DeliveredTo, Unusable;
    var u := SysStep(svc, s, ClientReads).value;
    var w := s.down[s.read];
    var e := if w.Garbage? then C.Leave else C.Incoming(ToFrame(w));
    C.StepKeeps(s.client, e);
    TakenGrows(s.client, e);
    forall j | 0 <= j < s.read && s.down[j].Resp?
      ensures DeliveredTo(u.client, s.down[j]) || Unusable(u.client, s.down[j])
    {
      SettledStable(s, e, s.down[j]);
    }
    if w.Garbage? {
      NoNewAnswers(s.client, e);
    } else {
      IncomingAnswers(s.client, w);
      if w.Resp? { ReadSettles(s, u); }
    }
    assert u.down[s.read] == w;
    ClientOnlyKeeps(s, u);
  }

  lemma ReadSettles(s: System, u: System)
    requires C.Inv(s.client) && TasksOk(s) && AnswersOk(s)
    requires s.read < |s.down| && s.down[s.read].Resp? && ClientRead(s) == Some(u)
    ensures DeliveredTo(u.client, s.down[s.read]) || Unusable(u.client, s.down[s.read])
  {
    hide C.Inv, TasksOk, AnswersOk, C.RepliesTo, C.HandleFrame;
    var f := ToFrame(s.down[s.read]);
    NextResponseIsOwed(s);
    C.ResponseDelivered(s.client, f);
    C.CallsStable(s.client, C.Incoming(f), f.id.value);
  }

  /** A change of the task list that finishes no task and writes nothing. */
  lemma TasksOnlyKeep(s: System, u: System)
    requires SysInv(s) && Grows(s, u) && TasksOk(u)
    requires u.client == s.client && u.read == s.read && u.down == s.down
    requires u.mux == s.mux && u.pending == s.pending && s.chanCtr <= u.chanCtr
    requires forall t :: 0 <= t < |u.tasks| && u.tasks[t].phase.Registering? ==> u.chanCtr !in u.mux.regs
    requires forall id :: BeingAnnounced(s, id) ==> BeingAnnounced(u, id)
    ensures SysInv(u)
  {
    hide C.Inv, StreamsOk, Backed, C.RepliesTo, TasksOk, BeingAnnounced, Settled, FromWire;
    AnswersGrow(s, u);
    SettledGrows(s, u);
    StreamsGrow(s, u);
  }

  lemma ServerReadsKeeps(svc: D.Service, s: System)
    requires SysInv(s) && SysStep(svc, s, ServerReads).Some?
    ensures SysInv(SysStep(svc, s, ServerReads).value)
  {
    hide C.Inv, StreamsOk, AnswersOk, Settled;
    RegisteringFresh(s);
    TasksOnlyKeep(s, SysStep(svc, s, ServerReads).value);
  }

  lemma DispatchKeeps(svc: D.Service, s: System, t: nat)
    requires SysInv(s) && SysStep(svc, s, Dispatch(t)).Some?
    ensures SysInv(SysStep(svc, s, Dispatch(t)).value)
  {
    hide C.Inv, StreamsOk, AnswersOk, Settled, D.Begin;
    RegisteringFresh(s);
    TasksOnlyKeep(s, SysStep(svc, s, Dispatch(t)).value);
  }

  lemma MethodReturnsKeeps(svc: D.Service, s: System, t: nat, r: D.Result)
    requires SysInv(s) && SysStep(svc, s, MethodReturns(t, r)).Some?
    ensures SysInv(SysStep(svc, s, MethodReturns(t, r)).value)
  {
    hide C.Inv, StreamsOk, AnswersOk, Settled, D.Conclude;
    RegisteringFresh(s);
    TasksOnlyKeep(s, SysStep(svc, s, MethodReturns(t, r)).value);
  }

  /** A task past its write that keeps its answer. */
  lemma PastTaskKeeps(s: System, u: System, t: nat)
    requires SysInv(s) && t < |s.tasks| && |u.tasks| == |s.tasks|
    requires u == s.(tasks := s.tasks[t := u.tasks[t]], handling := u.handling)
    requires Past(s.tasks[t].phase) && SameAnswer(s.tasks[t], u.tasks[t])
    ensures SysInv(u)
  {
    hide C.Inv, StreamsOk, AnswersOk, Settled, RespFrame, Announced, Backed;
    RegisteringFresh(s);
    TasksOnlyKeep(s, u);
  }

  /** Leaving the handler changes no answer. */
  lemma LeavingKeeps(svc: D.Service, s: System, e: SysEvent)
    requires e.CallDone? || e.RunDeferred? || e.Finish?
    requires SysInv(s) && SysStep(svc, s, e).Some?
    ensures SysInv(SysStep(svc, s, e).value)
  {
    hide SysInv;
    PastTaskKeeps(s, SysStep(svc, s, e).value, e.task);
  }

  lemma LockKeeps(svc: D.Service, s: System, t: nat)
    requires SysInv(s) && SysStep(svc, s, Lock(t)).Some?
    ensures SysInv(SysStep(svc, s, Lock(t)).value)
  {
    hide C.Inv, StreamsOk, AnswersOk, Settled;
    RegisteringFresh(s);
    TasksOnlyKeep(s, SysStep(svc, s, Lock(t)).value);
  }

  lemma DrawKeeps(svc: D.Service, s: System, t: nat)
    requires SysInv(s) && SysStep(svc, s, Draw(t)).Some?
    ensures SysInv(SysStep(svc, s, Draw(t)).value)
  {
    hide C.Inv, AnswersOk, Mux.Consistent, Announced, Settled;
    TasksOnlyKeep(s, SysStep(svc, s, Draw(t)).value);
  }

  /** Registration: the id is fresh, and its response is about to be flushed by the task
      that holds the lock. */
  lemma AcceptKeeps(svc: D.Service, s: System, t: nat)
    requires SysInv(s) && SysStep(svc, s, Accept(t)).Some?
    ensures SysInv(SysStep(svc, s, Accept(t)).value)
  {
    hide C.Inv, Announced, Backed, C.RepliesTo, Mux.Consistent, Settled, FromWire;
    var u := SysStep(svc, s, Accept(t)).value;
    var id := s.tasks[t].chan.value;
    assert id == s.chanCtr && id !in s.mux.regs;
    Mux.StepConsistent(s.mux, Registers(s.tasks[t]));
    AnswersGrow(s, u);
    SettledGrows(s, u);
    NoticesGrow(s, u);
    assert BeingAnnounced(u, id);
    forall x | x in u.mux.regs ensures Announced(u, |u.down|, x) || BeingAnnounced(u, x) {
      if x != id { assert !BeingAnnounced(s, x); }
    }
  }

  lemma FlushKeeps(svc: D.Service, s: System, t: nat, encodes: bool)
    requires SysInv(s) && SysStep(svc, s, Flush(t, encodes)).Some?
    ensures SysInv(SysStep(svc, s, Flush(t, encodes)).value)
  {
    hide C.Inv, AnswersOk, StreamsOk, Settled;
    var u := SysStep(svc, s, Flush(t, encodes)).value;
    assert RespFrame(u.tasks[t]) == RespFrame(s.tasks[t]);
    ReadInRange(s);
    SettledGrows(s, u);
    TaskIdsDistinct(s, t);
    FlushAnswers(s, u, t);
    FlushStreams(s, u, t);
  }

  /** The flush announces the channel that was being announced. */
  lemma FlushStreams(s: System, u: System, t: nat)
    requires StreamsOk(s) && Grows(s, u) && |u.down| == |s.down| + 1 && !u.down[|s.down|].Notify?
    requires u.mux == s.mux && u.pending == s.pending && u.chanCtr == s.chanCtr
    requires forall k :: 0 <= k < |u.tasks| ==> !u.tasks[k].phase.Registering?
    requires t < |s.tasks| && Past(u.tasks[t].phase) && u.tasks[t].chan == s.tasks[t].chan
    requires s.writeLK == Some(t)
    requires s.tasks[t].phase.Registered? ==> u.down[|s.down|] == RespFrame(u.tasks[t])
    ensures StreamsOk(u)
  {
    hide Mux.Consistent, Announced;
    NoticesGrow(s, u);
    forall x | x in u.mux.regs ensures Announced(u, |u.down|, x) {
      if BeingAnnounced(s, x) {
        assert AnnouncedAt(u, |s.down|, x);
        AnnouncedHere(u, |s.down|, x);
      }
    }
  }

  lemma AnnouncedHere(s: System, i: nat, id: ChanId)
    requires AnnouncedAt(s, i, id)
    ensures Announced(s, |s.down|, id)
  {
  }

  lemma FlushAnswers(s: System, u: System, t: nat)
    requires AnswersOk(s) && Grows(s, u) && u.client == s.client && u.read == s.read
    requires |u.down| == |s.down| + 1 && t < |u.tasks| && Past(u.tasks[t].phase)
    requires t < |s.tasks| && !Past(s.tasks[t].phase) && u.tasks[t].req == s.tasks[t].req
    requires u.down[|s.down|].Resp? ==> u.down[|s.down|] == RespFrame(u.tasks[t])
    requires forall k :: 0 <= k < |s.tasks| && k != t ==> s.tasks[k].req.id != s.tasks[t].req.id
    ensures AnswersOk(u)
  {
    hide C.RepliesTo, FromWire;
    if u.down[|s.down|].Resp? {
      forall i | 0 <= i < |s.down| && s.down[i].Resp? ensures s.down[i].id != u.down[|s.down|].id {
        var k :| 0 <= k < |s.tasks| && Past(s.tasks[k].phase) && RespFrame(s.tasks[k]) == s.down[i];
        assert k != t;
      }
    }
    AnswersGrow(s, u);
  }

  lemma TaskIdsDistinct(s: System, t: nat)
    requires C.Inv(s.client) && TasksOk(s) && t < |s.tasks|
    ensures forall k :: 0 <= k < |s.tasks| && k != t ==> s.tasks[k].req.id != s.tasks[t].req.id
  {
    forall k | 0 <= k < |s.tasks| && k != t ensures s.tasks[k].req.id != s.tasks[t].req.id {
      assert s.tasks[k].req == s.client.taken[k] && s.tasks[t].req == s.client.taken[t];
    }
  }

  lemma NewNoticeRegistered(m: Mux.Trace, e: Mux.Event)
    requires Mux.Consistent(m) && Mux.Step(m, e).Some? && !e.Registration?
    ensures var u := Mux.Step(m, e).value;
      u.regs == m.regs && |u.notices| == |m.notices| + 1 && u.notices[|m.notices|].id in u.regs
  {
    Mux.StepConsistent(m, e);
  }

  lemma MuxValueKeeps(svc: D.Service, s: System, chosen: nat, v: Value)
    requires SysInv(s) && SysStep(svc, s, MuxValue(chosen, v)).Some?
    ensures SysInv(SysStep(svc, s, MuxValue(chosen, v)).value)
  {
    hide C.Inv, C.RepliesTo, Announced, Backed, Mux.Step, Mux.Consistent, Settled, FromWire;
    Mux.StepConsistent(s.mux, Mux.Receive(chosen, v));
    NewNoticeRegistered(s.mux, Mux.Receive(chosen, v));
    var u := SysStep(svc, s, MuxValue(chosen, v)).value;
    AnswersGrow(s, u);
    SettledGrows(s, u);
    NoticesGrow(s, u);
    assert forall id :: BeingAnnounced(s, id) ==> BeingAnnounced(u, id);
  }

  lemma MuxClosedKeeps(svc: D.Service, s: System, chosen: nat)
    requires SysInv(s) && SysStep(svc, s, MuxClosed(chosen)).Some?
    ensures SysInv(SysStep(svc, s, MuxClosed(chosen)).value)
  {
    hide C.Inv, C.RepliesTo, Announced, Backed, Mux.Step, Mux.Consistent, Settled, FromWire;
    var u := SysStep(svc, s, MuxClosed(chosen)).value;
    Mux.StepConsistent(s.mux, Mux.Closed(chosen));
    NewNoticeRegistered(s.mux, Mux.Closed(chosen));
    AnswersGrow(s, u);
    SettledGrows(s, u);
    NoticesGrow(s, u);
    assert forall id :: BeingAnnounced(s, id) ==> BeingAnnounced(u, id);
  }

  /** The multiplexer can write only while the lock is free, so no registration is waiting
      for its response. */
  lemma MuxWriteKeeps(svc: D.Service, s: System)
    requires SysInv(s) && SysStep(svc, s, MuxWrite).Some?
    ensures SysInv(SysStep(svc, s, MuxWrite).value)
  {
    hide C.Inv, C.RepliesTo, Announced, Backed, Mux.Consistent, Settled, FromWire;
    var u := SysStep(svc, s, MuxWrite).value;
    AnswersGrow(s, u);
    SettledGrows(s, u);
    NoticesGrow(s, u);
    var id := s.pending.value.id;
    assert Announced(s, |s.down|, id);
    AnnouncedGrows(s, u, |s.down|, |s.down|, id);
  }

  lemma SysStepKeeps(svc: D.Service, s: System, e: SysEvent)
    requires SysInv(s) && SysStep(svc, s, e).Some?
    ensures SysInv(SysStep(svc, s, e).value)
  {
    hide SysInv, SysStep;
    match e
    case OfClient(ev) => OfClientKeeps(svc, s, ev);
    case ClientReads => ClientReadsKeeps(svc, s);
    case ServerReads => ServerReadsKeeps(svc, s);
    case Dispatch(t) => DispatchKeeps(svc, s, t);
    case MethodReturns(t, r) => MethodReturnsKeeps(svc, s, t, r);
    case Lock(t) => LockKeeps(svc, s, t);
    case Draw(t) => DrawKeeps(svc, s, t);
    case Accept(t) => AcceptKeeps(svc, s, t);
    case Flush(t, ok) => FlushKeeps(svc, s, t, ok);
    case CallDone(_) => LeavingKeeps(svc, s, e);
    case RunDeferred(_) => LeavingKeeps(svc, s, e);
    case Finish(_) => LeavingKeeps(svc, s, e);
    case MuxValue(k, v) => MuxValueKeeps(svc, s, k, v);
    case MuxClosed(k) => MuxClosedKeeps(svc, s, k);
    case MuxWrite => MuxWriteKeeps(svc, s);
  }

  lemma {:induction false} SysRunKeeps(svc: D.Service, s: System, events: seq<SysEvent>)
    requires SysInv(s) && SysRun(svc, s, events).Some?
    ensures SysInv(SysRun(svc, s, events).value)
    decreases |events|
  {
    hide SysInv, SysStep;
    if events != [] {
      SysStepKeeps(svc, s, events[0]);
      SysRunKeeps(svc, SysStep(svc, s, events[0]).value, events[1..]);
    }
  }

  lemma StartInv()
    ensures SysInv(START_STATE)
  {
    C.InitInv();
  }
}
