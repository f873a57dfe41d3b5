/** The client side of the JSON-RPC connection: callers, the request queue and the event
    loop of main/rpc/websocket.go with its table of requests in flight. */
module RpcClient {
  import opened Words
  import opened RpcMessages

  /** What a caller's reply channel can carry. The id of a shutdown error is not modelled. */
  datatype Reply = Answer(id: Id, result: Option<Value>, error: Option<RespError>)
                 | ConnectionClosed

  /** A request together with its reply channel, named by the call that made it, and
      whether it brings a sink for a streamed result. */
  datatype ClientRequest = ClientRequest(req: Request, ready: Id, sink: bool)

  // -------------------------------------------------------- the loop's own state

  /** `replies` holds everything ever sent on each reply channel. */
  datatype Conn = Conn(inflight: map<Id, ClientRequest>,
                       chanHandlers: map<ChanId, Id>,
                       replies: map<Id, seq<Reply>>)

  function RepliesTo(c: Conn, ready: Id): seq<Reply> {
    if ready in c.replies then c.replies[ready] else []
  }

  function Send(c: Conn, ready: Id, r: Reply): Conn {
    c.(replies := c.replies[ready := RepliesTo(c, ready) + [r]])
  }

  /** handleResponse: an answer without an id, with an unknown id, or with an unreadable
      channel id for a streaming call is dropped. */
  function HandleResponse(c: Conn, f: Frame): Conn {
    if f.id.None? || f.id.value !in c.inflight then c
    else
      var id := f.id.value;
      var req := c.inflight[id];
      var streams := req.sink && f.result.Some?;
      if streams && ChannelId(f.result.value).None? then c
      else
        var c1 := if streams
                  then c.(chanHandlers := c.chanHandlers[ChannelId(f.result.value).value := req.ready])
                  else c;
        var c2 := Send(c1, req.ready, Answer(id, f.result, f.error));
        c2.(inflight := c2.inflight - {id})
  }

  /** The channel a notification names, if its first parameter carries one. */
  function NamedChannel(f: Frame): Option<ChanId>
    requires f.params != []
  {
    if f.params[0].Some? then ChannelId(f.params[0].value) else None
  }

  /** handleChanMessage: nothing but a sink call, which reads the second parameter. A
      channel id that does not parse counts as 0. `None` is an index-out-of-range panic. */
  function HandleChanMessage(c: Conn, f: Frame): Option<Conn> {
    if f.params == [] then None
    else
      var chid := if NamedChannel(f).Some? then NamedChannel(f).value else 0;
      if chid in c.chanHandlers && |f.params| < 2 then None else Some(c)
  }

  function HandleChanClose(c: Conn, f: Frame): Option<Conn> {
    if f.params == [] then None
    else if NamedChannel(f).None? then Some(c)
    else Some(c.(chanHandlers := c.chanHandlers - {NamedChannel(f).value}))
  }

  /** handleFrame. A remote call only starts a handler; without an id it panics. */
  function HandleFrame(c: Conn, f: Frame): Option<Conn> {
    if f.name == "" then Some(HandleResponse(c, f))
    else if f.name == WS_CANCEL then (if f.params == [] then None else Some(c))
    else if f.name == CH_VALUE then HandleChanMessage(c, f)
    else if f.name == CH_CLOSE then HandleChanClose(c, f)
    else if f.id.None? then None else Some(c)
  }

  /** The loop takes a request: it enters the table before it is written. */
  function TakeRequest(c: Conn, req: ClientRequest): Conn {
    c.(inflight := c.inflight[req.req.id := req])
  }

  /** One iteration of the deferred loop over the requests in flight. */
  function DrainOne(c: Conn, id: Id): Conn
    requires id in c.inflight
  {
    Send(c, c.inflight[id].ready, ConnectionClosed)
  }

  /** The loop's own invariant: the table holds requests it has taken, each under its own id
      and with its own reply channel; a taken request has no reply while it is in the table
      and exactly one afterwards; nothing else has any. */
  ghost predicate LoopOk(c: Conn, taken: set<Id>) {
    && (forall id :: id in c.inflight ==>
          id in taken && c.inflight[id].req.id == id && c.inflight[id].ready == id)
    && (forall id :: id in taken ==> |RepliesTo(c, id)| == if id in c.inflight then 0 else 1)
    && (forall id :: id !in taken ==> RepliesTo(c, id) == [])
  }

  /** A response names a request in flight and is usable to it. */
  ghost predicate Hits(c: Conn, f: Frame) {
    && f.id.Some? && f.id.value in c.inflight
    && !(c.inflight[f.id.value].sink && f.result.Some? && f.result.value.Json?)
  }

  /** The channel handlers after a response that hits: a streaming request gets one under the
      number in the result, null counting as 0. */
  ghost function HandlersAfter(c: Conn, f: Frame): map<ChanId, Id>
    requires Hits(c, f)
  {
    if c.inflight[f.id.value].sink && f.result.Some? then
      var n := if f.result.value.Number? then f.result.value.n else 0;
      c.chanHandlers[n := f.id.value]
    else c.chanHandlers
  }

  /** A frame whose handling indexes past its parameters or calls without an id. */
  ghost predicate Panics(c: Conn, f: Frame) {
    || ((f.name == WS_CANCEL || f.name == CH_VALUE || f.name == CH_CLOSE) && f.params == [])
    || (f.name == CH_VALUE && |f.params| == 1 &&
        (if NamedChannel(f).Some? then NamedChannel(f).value else 0) in c.chanHandlers)
    || (CallName(f.name) && f.id.None?)
  }

  lemma PanicsIsNone(c: Conn, f: Frame)
    ensures HandleFrame(c, f).None? <==> Panics(c, f)
  {
    assert |WS_CANCEL| == 11 && |CH_VALUE| == 11 && |CH_CLOSE| == 13 && WS_CANCEL[6] != CH_VALUE[6];
  }

  /** The arrival makes the loop return. */
  ghost predicate Ends(c: Conn, a: Arrival) {
    match a
    case FromCaller(_) => false
    case FromRemote(f) => Panics(c, f)
    case _ => true
  }

  /** What one turn of the select yields. The last three make the loop return. */
  datatype Arrival = FromCaller(req: ClientRequest) | FromRemote(frame: Frame) | Undecodable | Stop | RemoteClosed

  /** The order in which Go ranges over the keys of a map. */
  ghost predicate Enumerates(order: seq<Id>, keys: set<Id>) {
    && (forall id :: id in order <==> id in keys)
    && (forall i, j :: 0 <= i < j < |order| ==> order[i] != order[j])
  }

  /** Callers draw distinct ids and offer their own reply channels. */
  ghost predicate OwnRequests(arrivals: seq<Arrival>) {
    && (forall i :: 0 <= i < |arrivals| && arrivals[i].FromCaller? ==>
          arrivals[i].req.ready == arrivals[i].req.req.id)
    && (forall i, j :: 0 <= i < j < |arrivals| && arrivals[i].FromCaller? && arrivals[j].FromCaller? ==>
          arrivals[i].req.req.id != arrivals[j].req.req.id)
  }

  ghost function RequestIds(arrivals: seq<Arrival>): set<Id> {
    set i | 0 <= i < |arrivals| && arrivals[i].FromCaller? :: arrivals[i].req.req.id
  }

  /** The event loop's fields and the methods that update them in place. */
  class EventLoop {
    var inflight: map<Id, ClientRequest>
    var chanHandlers: map<ChanId, Id>
    var replies: map<Id, seq<Reply>>

    function State(): Conn
      reads this
    {
      Conn(inflight, chanHandlers, replies)
    }

    constructor ()
      ensures State() == Conn(map[], map[], map[])
    {
      inflight, chanHandlers, replies := map[], map[], map[];
    }

    method Ready(ready: Id, r: Reply)
      modifies `replies
      ensures State() == Send(old(State()), ready, r)
    {
      var before := if ready in replies then replies[ready] else [];
      replies := replies[ready := before + [r]];
    }

    /** A new request enters the table: its id was free, every other entry keeps its place,
        and no reply channel is touched. */
    method OnRequest(req: ClientRequest, ghost taken: set<Id>)
      requires LoopOk(State(), taken) && req.req.id !in taken && req.ready == req.req.id
      modifies `inflight
      ensures LoopOk(State(), taken + {req.req.id})
      ensures req.req.id !in old(inflight) && req.req.id in inflight && inflight[req.req.id] == req
      ensures inflight - {req.req.id} == old(inflight)
    {
      inflight := inflight[req.req.id := req];
    }

    /** A response that hits removes the request it names and puts the one answer on that
        request's reply channel; any other response changes neither table nor replies. */
    method OnResponse(f: Frame, ghost taken: set<Id>)
      requires LoopOk(State(), taken)
      modifies this
      ensures State() == HandleResponse(old(State()), f) && LoopOk(State(), taken)
      ensures !old(Hits(State(), f)) ==> State() == old(State())
      ensures old(Hits(State(), f)) ==>
        && inflight == old(inflight) - {f.id.value}
        && RepliesTo(State(), f.id.value) == [Answer(f.id.value, f.result, f.error)]
        && chanHandlers == old(HandlersAfter(State(), f))
        && forall id :: id != f.id.value ==> RepliesTo(State(), id) == RepliesTo(old(State()), id)
    {
      if f.id.None? {
        return;
      }
      var id := f.id.value;
      if id !in inflight {
        return;
      }
      var req := inflight[id];
      if req.sink && f.result.Some? {
        var channelid := ChannelId(f.result.value);
        if channelid.None? {
          return;
        }
        chanHandlers := chanHandlers[channelid.value := req.ready];
      }
      Ready(req.ready, Answer(id, f.result, f.error));
      inflight := inflight - {id};
    }

    /** handleFrame. Whatever arrives, the loop's invariant is kept; only a response can
        change the table or the replies. */
    method OnFrame(f: Frame, ghost taken: set<Id>) returns (panics: bool)
      requires LoopOk(State(), taken)
      modifies this
      ensures LoopOk(State(), taken)
      ensures panics <==> Panics(old(State()), f)
      ensures !panics ==> Some(State()) == HandleFrame(old(State()), f)
      ensures f.name != "" ==> inflight == old(inflight) && replies == old(replies)
      ensures f.name == "" && old(Hits(State(), f)) ==>
        f.id.value !in inflight && RepliesTo(State(), f.id.value) == [Answer(f.id.value, f.result, f.error)]
      ensures forall id :: id !in old(inflight) ==>
        id !in inflight && RepliesTo(State(), id) == RepliesTo(old(State()), id)
    {
      PanicsIsNone(State(), f);
      panics := false;
      if f.name == "" {
        OnResponse(f, taken);
      } else if f.name == WS_CANCEL {
        panics := f.params == [];
      } else if f.name == CH_VALUE {
        panics := HandleChanMessage(State(), f).None?;
      } else if f.name == CH_CLOSE {
        if f.params == [] {
          return true;
        }
        var chid := NamedChannel(f);
        if chid.Some? {
          chanHandlers := chanHandlers - {chid.value};
        }
      } else {
        panics := f.id.None?;
      }
    }

    /** The deferred function: one error for each request still in flight, in whatever
        `order` the runtime ranges over the map. No other reply channel is touched. */
    method Shutdown(order: seq<Id>)
      requires Enumerates(order, inflight.Keys)
      requires forall id :: id in inflight ==> inflight[id].ready == id
      modifies `replies
      ensures forall id :: id in inflight ==>
        RepliesTo(State(), id) == RepliesTo(old(State()), id) + [ConnectionClosed]
      ensures forall id :: id !in inflight ==> RepliesTo(State(), id) == RepliesTo(old(State()), id)
    {
      ghost var start := State();
      for i := 0 to |order|
        invariant forall id :: id in order[..i] ==>
          RepliesTo(State(), id) == RepliesTo(start, id) + [ConnectionClosed]
        invariant forall id :: id !in order[..i] ==> RepliesTo(State(), id) == RepliesTo(start, id)
      {
        var id := order[i];
        assert id in order;
        assert id in inflight.Keys && id !in order[..i];
        assert order[..i + 1] == order[..i] + [id];
        Ready(inflight[id].ready, ConnectionClosed);
      }
      assert order[..|order|] == order;
    }

    /** The whole loop, from a fresh connection to its return, over whatever arrives; a panic
        runs the deferred function too. It handles arrivals up to the first that ends it. When
        it returns, every request it took has exactly one reply and no other request has any;
        a usable response to a request in flight is that request's reply. `states` holds the
        loop's state before each arrival and after the last. */
    method HandleWsConn(arrivals: seq<Arrival>, range: set<Id> -> seq<Id>)
      returns (handled: nat, ghost states: seq<Conn>)
      requires State() == Conn(map[], map[], map[]) && OwnRequests(arrivals)
      requires forall keys :: Enumerates(range(keys), keys)
      modifies this
      ensures handled <= |arrivals| && |states| == handled + 1 && states[0] == old(State())
      ensures forall k :: 0 <= k < handled - 1 ==> !Ends(states[k], arrivals[k])
      ensures handled < |arrivals| ==> handled > 0 && Ends(states[handled - 1], arrivals[handled - 1])
      ensures forall id :: |RepliesTo(State(), id)| == if id in RequestIds(arrivals[..handled]) then 1 else 0
      ensures forall k :: 0 <= k < handled && IsHit(states[k], arrivals[k]) ==> Replied(State(), arrivals[k].frame)
    {
      hide HandleFrame, HandleResponse, Hits, Panics, LoopOk, RequestIds;
      FreshLoopOk();
      handled := 0;
      states := [State()];
      var ended := false;
      while handled < |arrivals| && !ended
        invariant handled <= |arrivals| && |states| == handled + 1 && states[0] == old(State())
        invariant states[handled] == State()
        invariant LoopOk(State(), RequestIds(arrivals[..handled]))
        invariant ended ==> handled > 0 && Ends(states[handled - 1], arrivals[handled - 1])
        invariant forall k :: 0 <= k < (if ended then handled - 1 else handled) ==> !Ends(states[k], arrivals[k])
        invariant forall k :: 0 <= k < handled && IsHit(states[k], arrivals[k]) ==>
          Replied(State(), arrivals[k].frame) && arrivals[k].frame.id.value !in inflight
          && arrivals[k].frame.id.value in RequestIds(arrivals[..handled])
        decreases |arrivals| - handled
      {
        ghost var taken := RequestIds(arrivals[..handled]);
        var a := arrivals[handled];
        ghost var before := State();
        RequestIdsSnoc(arrivals, handled);
        match a {
          case FromCaller(req) =>
            OnRequest(req, taken);
          case FromRemote(f) =>
            HitIsTaken(State(), f, taken);
            ended := OnFrame(f, taken);
          case _ =>
            ended := true;
        }
        handled := handled + 1;
        states := states + [State()];
      }
      LoopOkCounts(State(), RequestIds(arrivals[..handled]));
      Shutdown(range(inflight.Keys));
    }
  }

  ghost predicate IsHit(c: Conn, a: Arrival) {
    a.FromRemote? && a.frame.name == "" && Hits(c, a.frame)
  }

  /** The frame's content is the one reply to the request it names. */
  ghost predicate Replied(c: Conn, f: Frame) {
    f.id.Some? && RepliesTo(c, f.id.value) == [Answer(f.id.value, f.result, f.error)]
  }

  lemma FreshLoopOk()
    ensures LoopOk(Conn(map[], map[], map[]), {}) && RequestIds([]) == {}
  {
  }

  lemma LoopOkCounts(c: Conn, taken: set<Id>)
    requires LoopOk(c, taken)
    ensures forall id :: id in c.inflight ==> id in taken && c.inflight[id].ready == id
    ensures forall id :: |RepliesTo(c, id)| == if id in taken && id !in c.inflight then 1 else 0
  {
  }

  lemma HitIsTaken(c: Conn, f: Frame, taken: set<Id>)
    requires LoopOk(c, taken)
    ensures Hits(c, f) ==> f.id.Some? && f.id.value in taken
  {
    if Hits(c, f) { assert c.inflight[f.id.value].req.id == f.id.value; }
  }

  lemma RequestIdsSnoc(arrivals: seq<Arrival>, n: nat)
    requires n < |arrivals| && OwnRequests(arrivals)
    ensures RequestIds(arrivals[..n + 1]) ==
            if arrivals[n].FromCaller? then RequestIds(arrivals[..n]) + {arrivals[n].req.req.id}
            else RequestIds(arrivals[..n])
    ensures arrivals[n].FromCaller? ==> arrivals[n].req.req.id !in RequestIds(arrivals[..n])
  {
    var a, b := arrivals[..n], arrivals[..n + 1];
    assert b == a + [arrivals[n]];
    forall id | id in RequestIds(a) ensures id in RequestIds(b) {
      var i :| 0 <= i < |a| && a[i].FromCaller? && a[i].req.req.id == id;
      assert b[i] == a[i];
    }
    forall id | id in RequestIds(b)
      ensures id in RequestIds(a) || (arrivals[n].FromCaller? && id == arrivals[n].req.req.id)
    {
      var i :| 0 <= i < |b| && b[i].FromCaller? && b[i].req.req.id == id;
      if i < n { assert a[i] == b[i]; }
    }
    if arrivals[n].FromCaller? { assert b[n].FromCaller?; }
  }

  // ------------------------------------------------------- callers and the queue

  datatype Call = Call(name: string, params: seq<Value>, sink: bool)

  datatype Outcome = Got(reply: Reply) | GaveUp

  datatype Loop = Serving | Draining(left: set<Id>) | Exited

  const QUEUE_CAPACITY: nat := 100

  /** `calls` records what each caller asked for and `taken` what the loop has written,
      in order; both only grow. */
  datatype Client = Client(
    idCtr: Id,
    calls: map<Id, Call>,
    entering: set<Id>,
    queue: seq<ClientRequest>,
    conn: Conn,
    loop: Loop,
    taken: seq<Request>,
    returned: map<Id, Outcome>)

  const INIT: Client := Client(0, map[], {}, [], Conn(map[], map[], map[]), Serving, [], map[])

  /** What can happen next, in any order: a caller draws an id, offers its request to the
      queue or gives up because the loop has exited; the loop takes a request, handles a
      frame, or leaves for any reason; it drains the table and closes `exiting`; a caller
      receives its reply. */
  datatype Event =
    | BeginCall(call: Call)
    | Enqueue(id: Id)
    | GiveUp(id: Id)
    | Take
    | Incoming(frame: Frame)
    | Leave
    | Drain(id: Id)
    | CloseExiting
    | Return(id: Id)

  function RequestOf(id: Id, call: Call): ClientRequest {
    ClientRequest(Request(id, call.name, call.params), id, call.sink)
  }

  /** The state after an event, `None` when it cannot happen. A client method is called under
      its namespace and its own exported name, which is always a call's name
      (Dispatch.QualifiedIsCall). */
  function Step(c: Client, e: Event): Option<Client> {
    match e
    case BeginCall(call) =>
      if !CallName(call.name) then None
      else
        var id := c.idCtr + 1;
        Some(c.(idCtr := id, calls := c.calls[id := call], entering := c.entering + {id}))
    case Enqueue(id) =>
      if id in c.entering && id in c.calls && |c.queue| < QUEUE_CAPACITY
      then Some(c.(entering := c.entering - {id}, queue := c.queue + [RequestOf(id, c.calls[id])]))
      else None
    case GiveUp(id) =>
      if id in c.entering && c.loop.Exited?
      then Some(c.(entering := c.entering - {id}, returned := c.returned[id := GaveUp]))
      else None
    case Take =>
      if c.loop.Serving? && c.queue != []
      then Some(c.(queue := c.queue[1..], conn := TakeRequest(c.conn, c.queue[0]),
                   taken := c.taken + [c.queue[0].req]))
      else None
    case Incoming(f) =>
      if c.loop.Serving? && HandleFrame(c.conn, f).Some?
      then Some(c.(conn := HandleFrame(c.conn, f).value))
      else None
    case Leave =>
      if c.loop.Serving? then Some(c.(loop := Draining(c.conn.inflight.Keys))) else None
    case Drain(id) =>
      if c.loop.Draining? && id in c.loop.left && id in c.conn.inflight
      then Some(c.(conn := DrainOne(c.conn, id), loop := Draining(c.loop.left - {id})))
      else None
    case CloseExiting =>
      if c.loop == Draining({}) then Some(c.(loop := Exited)) else None
    case Return(id) =>
      if id in c.calls && id !in c.returned && RepliesTo(c.conn, id) != []
      then Some(c.(returned := c.returned[id := Got(RepliesTo(c.conn, id)[0])]))
      else None
  }

  /** Running a sequence of events; events that cannot happen end the run. */
  function Run(c: Client, events: seq<Event>): Option<Client>
    decreases |events|
  {
    if events == [] then Some(c)
    else
      var next := Step(c, events[0]);
      if next.None? then None else Run(next.value, events[1..])
  }

  // ------------------------------------------------------------------ invariant

  ghost predicate Taken(c: Client, id: Id) {
    exists i :: 0 <= i < |c.taken| && c.taken[i].id == id
  }

  /** The request that caller `id` made. */
  ghost predicate IsCall(c: Client, r: ClientRequest) {
    r.req.id in c.calls && r == RequestOf(r.req.id, c.calls[r.req.id])
  }

  /** Requests are where they should be: entering, queued and taken are disjoint, and no
      id occurs twice. */
  ghost predicate Placed(c: Client) {
    && (forall id :: id in c.calls ==> 1 <= id <= c.idCtr && CallName(c.calls[id].name))
    && c.idCtr >= 0
    && c.entering <= c.calls.Keys
    && (forall i :: 0 <= i < |c.queue| ==>
          IsCall(c, c.queue[i]) && c.queue[i].req.id !in c.entering)
    && (forall i, j :: 0 <= i < j < |c.queue| ==> c.queue[i].req.id != c.queue[j].req.id)
    && (forall i :: 0 <= i < |c.taken| ==>
          && c.taken[i].id in c.calls
          && c.taken[i] == RequestOf(c.taken[i].id, c.calls[c.taken[i].id]).req
          && c.taken[i].id !in c.entering)
    && (forall i, j :: 0 <= i < j < |c.taken| ==> c.taken[i].id != c.taken[j].id)
    && (forall i, j :: 0 <= i < |c.queue| && 0 <= j < |c.taken| ==> c.queue[i].req.id != c.taken[j].id)
  }

  /** Each request in flight is its caller's, under its caller's id, and was taken. */
  ghost predicate InflightOk(c: Client) {
    forall id :: id in c.conn.inflight ==>
      Taken(c, id) && c.conn.inflight[id].req.id == id && IsCall(c, c.conn.inflight[id])
  }

  /** A request in flight that is still owed a reply. */
  ghost predicate Owed(c: Client, id: Id) {
    id in c.conn.inflight &&
    match c.loop
    case Serving => true
    case Draining(left) => id in left
    case Exited => false
  }

  /** Every taken request is owed a reply or has exactly one; nothing else has any. */
  ghost predicate Answered(c: Client) {
    && (c.loop.Draining? ==> c.loop.left <= c.conn.inflight.Keys)
    && (forall id :: Taken(c, id) ==> |RepliesTo(c.conn, id)| == if Owed(c, id) then 0 else 1)
    && (forall id :: !Taken(c, id) ==> RepliesTo(c.conn, id) == [])
  }

  ghost predicate ReturnedOk(c: Client) {
    forall id :: id in c.returned && c.returned[id].Got? ==> RepliesTo(c.conn, id) == [c.returned[id].reply]
  }

  /** An answer on a reply channel bears the id of the call the channel belongs to, and the
      shutdown error is sent only after the loop was left. */
  ghost predicate OwnAnswers(c: Client) {
    && (forall id, r :: r in RepliesTo(c.conn, id) && r.Answer? ==> r.id == id)
    && (forall id, r :: r in RepliesTo(c.conn, id) && r.ConnectionClosed? ==> !c.loop.Serving?)
  }

  ghost predicate Inv(c: Client) {
    Placed(c) && InflightOk(c) && Answered(c) && ReturnedOk(c) && OwnAnswers(c)
  }

  // ------------------------------------------------- every event keeps it

  lemma InitInv()
    ensures Inv(INIT)
  {
  }

  lemma BeginKeeps(c: Client, call: Call)
    requires Inv(c) && Step(c, BeginCall(call)).Some?
    ensures Inv(Step(c, BeginCall(call)).value)
  {
    var d := Step(c, BeginCall(call)).value;
    assert d.calls.Keys == c.calls.Keys + {d.idCtr};
    assert forall id :: Taken(d, id) <==> Taken(c, id);
    assert forall id :: Owed(d, id) <==> Owed(c, id);
  }

  lemma EnqueueKeeps(c: Client, id: Id)
    requires Inv(c) && Step(c, Enqueue(id)).Some?
    ensures Inv(Step(c, Enqueue(id)).value)
  {
    var d := Step(c, Enqueue(id)).value;
    assert forall x :: Taken(d, x) <==> Taken(c, x);
    assert forall x :: Owed(d, x) <==> Owed(c, x);
  }

  lemma GiveUpKeeps(c: Client, id: Id)
    requires Inv(c) && Step(c, GiveUp(id)).Some?
    ensures Inv(Step(c, GiveUp(id)).value)
  {
    var d := Step(c, GiveUp(id)).value;
    assert forall x :: Taken(d, x) <==> Taken(c, x);
    assert forall x :: Owed(d, x) <==> Owed(c, x);
  }

  /** The id of a queued request is not in the table, so taking it overwrites nothing. */
  lemma TakeIsFresh(c: Client)
    requires Inv(c) && c.queue != []
    ensures c.queue[0].req.id !in c.conn.inflight
    ensures !Taken(c, c.queue[0].req.id)
  {
  }

  lemma TakePlaces(c: Client)
    requires Placed(c) && Step(c, Take).Some?
    ensures Placed(Step(c, Take).value)
  {
    hide CallName;
  }

  lemma TakeKeeps(c: Client)
    requires Inv(c) && Step(c, Take).Some?
    ensures Inv(Step(c, Take).value)
  {
    hide CallName;
    var d := Step(c, Take).value;
    var r := c.queue[0];
    TakeIsFresh(c);
    TakePlaces(c);
    hide Placed;
    assert d.taken[|c.taken|] == r.req;
    forall x ensures Taken(d, x) <==> Taken(c, x) || x == r.req.id {
      if Taken(c, x) {
        var i :| 0 <= i < |c.taken| && c.taken[i].id == x;
        assert d.taken[i].id == x;
      }
    }
    assert forall x :: RepliesTo(d.conn, x) == RepliesTo(c.conn, x);
    assert forall x :: Owed(d, x) <==> Owed(c, x) || x == r.req.id;
  }

  /** A response answers the one request it names, and only if that request is in flight;
      no other reply channel is touched. */
  lemma ResponseEffect(c: Client, f: Frame)
    requires Inv(c)
    ensures var d := HandleResponse(c.conn, f);
      || (d.inflight == c.conn.inflight && d.replies == c.conn.replies)
      || (&& f.id.Some? && f.id.value in c.conn.inflight
          && d.inflight == c.conn.inflight - {f.id.value}
          && RepliesTo(d, f.id.value) ==
             RepliesTo(c.conn, f.id.value) + [Answer(f.id.value, f.result, f.error)]
          && forall x :: x != f.id.value ==> RepliesTo(d, x) == RepliesTo(c.conn, x))
  {
  }

  lemma HandlersOnlyKeeps(c: Client, conn: Conn)
    requires Inv(c) && conn.inflight == c.conn.inflight && conn.replies == c.conn.replies
    ensures Inv(c.(conn := conn))
  {
    hide Placed;
    var d := c.(conn := conn);
    assert forall x :: Taken(d, x) <==> Taken(c, x);
    assert forall x :: Owed(d, x) <==> Owed(c, x);
    assert forall x :: RepliesTo(conn, x) == RepliesTo(c.conn, x);
    PlacedIgnoresConn(c, conn);
  }

  lemma AnswerKeeps(c: Client, conn: Conn, id: Id, r: Reply)
    requires Inv(c) && c.loop.Serving? && id in c.conn.inflight
    requires conn.inflight == c.conn.inflight - {id}
    requires RepliesTo(conn, id) == RepliesTo(c.conn, id) + [r] && r.Answer? && r.id == id
    requires forall x :: x != id ==> RepliesTo(conn, x) == RepliesTo(c.conn, x)
    ensures Inv(c.(conn := conn))
  {
    hide RepliesTo, Placed;
    var d := c.(conn := conn);
    assert forall x :: Taken(d, x) <==> Taken(c, x);
    assert Owed(c, id);
    assert forall x :: Owed(d, x) <==> Owed(c, x) && x != id;
    PlacedIgnoresConn(c, conn);
  }

  lemma PlacedIgnoresLoop(c: Client, conn: Conn, loop: Loop)
    requires Placed(c)
    ensures Placed(c.(conn := conn, loop := loop))
  {
  }

  lemma PlacedIgnoresConn(c: Client, conn: Conn)
    requires Placed(c)
    ensures Placed(c.(conn := conn))
  {
  }

  lemma IncomingKeeps(c: Client, f: Frame)
    requires Inv(c) && Step(c, Incoming(f)).Some?
    ensures Inv(Step(c, Incoming(f)).value)
  {
    hide Inv, HandleResponse;
    var conn := Step(c, Incoming(f)).value.conn;
    if f.name == "" {
      ResponseEffect(c, f);
    }
    if conn.inflight == c.conn.inflight && conn.replies == c.conn.replies {
      HandlersOnlyKeeps(c, conn);
    } else {
      AnswerKeeps(c, conn, f.id.value, Answer(f.id.value, f.result, f.error));
    }
  }

  lemma LeaveKeeps(c: Client)
    requires Inv(c) && Step(c, Leave).Some?
    ensures Inv(Step(c, Leave).value)
  {
    var d := Step(c, Leave).value;
    assert forall x :: Taken(d, x) <==> Taken(c, x);
    assert forall x :: Owed(d, x) <==> Owed(c, x);
  }

  lemma DrainKeeps(c: Client, id: Id)
    requires Inv(c) && Step(c, Drain(id)).Some?
    ensures Inv(Step(c, Drain(id)).value)
  {
    hide Placed;
    var d := Step(c, Drain(id)).value;
    PlacedIgnoresLoop(c, d.conn, d.loop);
    assert forall x :: Taken(d, x) <==> Taken(c, x);
    assert c.conn.inflight[id].ready == id;
    assert forall x :: x != id ==> RepliesTo(d.conn, x) == RepliesTo(c.conn, x);
    assert forall x :: Owed(d, x) <==> Owed(c, x) && x != id;
    assert Owed(c, id);
  }

  lemma CloseKeeps(c: Client)
    requires Inv(c) && Step(c, CloseExiting).Some?
    ensures Inv(Step(c, CloseExiting).value)
  {
    var d := Step(c, CloseExiting).value;
    assert forall x :: Taken(d, x) <==> Taken(c, x);
    assert forall x :: Owed(d, x) <==> Owed(c, x);
  }

  lemma ReturnKeeps(c: Client, id: Id)
    requires Inv(c) && Step(c, Return(id)).Some?
    ensures Inv(Step(c, Return(id)).value)
  {
    var d := Step(c, Return(id)).value;
    assert forall x :: Taken(d, x) <==> Taken(c, x);
    assert forall x :: Owed(d, x) <==> Owed(c, x);
    assert |RepliesTo(c.conn, id)| == 1;
  }

  lemma StepKeeps(c: Client, e: Event)
    requires Inv(c) && Step(c, e).Some?
    ensures Inv(Step(c, e).value)
  {
    hide Inv, HandleFrame;
    match e
    case BeginCall(call) => BeginKeeps(c, call);
    case Enqueue(id) => EnqueueKeeps(c, id);
    case GiveUp(id) => GiveUpKeeps(c, id);
    case Take => TakeKeeps(c);
    case Incoming(f) => IncomingKeeps(c, f);
    case Leave => LeaveKeeps(c);
    case Drain(id) => DrainKeeps(c, id);
    case CloseExiting => CloseKeeps(c);
    case Return(id) => ReturnKeeps(c, id);
  }

  lemma {:induction false} RunKeeps(c: Client, events: seq<Event>)
    requires Inv(c) && Run(c, events).Some?
    ensures Inv(Run(c, events).value)
    decreases |events|
  {
    hide Inv, Step;
    if events != [] {
      StepKeeps(c, events[0]);
      RunKeeps(Step(c, events[0]).value, events[1..]);
    }
  }

  /** Replies are only ever added, so one that is there stays the only one. */
  lemma RepliesStable(c: Client, e: Event, id: Id)
    requires Inv(c) && Step(c, e).Some?
    ensures RepliesTo(c.conn, id) <= RepliesTo(Step(c, e).value.conn, id)
    ensures |RepliesTo(c.conn, id)| == 1 ==> RepliesTo(Step(c, e).value.conn, id) == RepliesTo(c.conn, id)
  {
    hide Inv;
    StepKeeps(c, e);
    AtMostOne(Step(c, e).value, id);
  }

  lemma AtMostOne(c: Client, id: Id)
    requires Inv(c)
    ensures |RepliesTo(c.conn, id)| <= 1
  {
    if Taken(c, id) {} else {}
  }

  lemma CallsStable(c: Client, e: Event, id: Id)
    requires Inv(c) && Step(c, e).Some? && id in c.calls
    ensures id in Step(c, e).value.calls && Step(c, e).value.calls[id] == c.calls[id]
  {
  }

  /** An incoming response for a taken request without a reply yet is delivered to its
      caller, except that a streaming call drops a result that is no channel id. */
  lemma ResponseDelivered(c: Client, f: Frame)
    requires Inv(c) && c.loop.Serving? && f.name == "" && f.id.Some?
    requires Taken(c, f.id.value) && RepliesTo(c.conn, f.id.value) == []
    requires Step(c, Incoming(f)).Some?
    ensures f.id.value in c.calls
    ensures RepliesTo(Step(c, Incoming(f)).value.conn, f.id.value) == [Answer(f.id.value, f.result, f.error)] ||
            (c.calls[f.id.value].sink && f.result.Some? && f.result.value.Json?)
  {
    assert Owed(c, f.id.value);
  }

  // ------------------------------------------------------------ main results

  /** Exactly one answer, in every run and whatever frames arrive: no reply channel is sent
      to twice, only taken requests are answered, and when `exiting` is closed every taken
      request has its one reply. */
  lemma ExactlyOneAnswer(events: seq<Event>)
    requires Run(INIT, events).Some?
    ensures var c := Run(INIT, events).value;
      && (forall id :: |RepliesTo(c.conn, id)| <= 1)
      && (forall id :: RepliesTo(c.conn, id) != [] ==> Taken(c, id))
      && (c.loop.Exited? ==> forall id :: Taken(c, id) ==> |RepliesTo(c.conn, id)| == 1)
  {
    InitInv();
    RunKeeps(INIT, events);
    var c := Run(INIT, events).value;
    forall id ensures |RepliesTo(c.conn, id)| <= 1 && (RepliesTo(c.conn, id) != [] ==> Taken(c, id)) {
      if Taken(c, id) {} else {}
    }
  }

  /** The table is faithful in every run: `inflight[id]` is the request that call `id` made,
      and it carries that call's own reply channel. */
  lemma InflightIsFaithful(events: seq<Event>, id: Id)
    requires Run(INIT, events).Some?
    requires id in Run(INIT, events).value.conn.inflight
    ensures var c := Run(INIT, events).value;
      id in c.calls && c.conn.inflight[id] == RequestOf(id, c.calls[id])
  {
    InitInv();
    RunKeeps(INIT, events);
  }

  /** A reply a caller returned with is the only one its channel ever carried, and an answer
      bears the caller's own id, so the id check after it cannot fail. */
  lemma ReturnIsOwnReply(events: seq<Event>, id: Id)
    requires Run(INIT, events).Some?
    requires var c := Run(INIT, events).value; id in c.returned && c.returned[id].Got?
    ensures var c := Run(INIT, events).value;
      && RepliesTo(c.conn, id) == [c.returned[id].reply]
      && (c.returned[id].reply.Answer? ==> c.returned[id].reply.id == id)
  {
    InitInv();
    RunKeeps(INIT, events);
  }

  // ------------------------------------------------- after the loop has left

  /** The call is beyond the loop's reach: the loop has left, and does not owe it a reply. */
  ghost predicate Stranded(c: Client, id: Id) {
    !c.loop.Serving? && !Owed(c, id) && RepliesTo(c.conn, id) == []
  }

  lemma StrandedStays(c: Client, e: Event, id: Id)
    requires Inv(c) && Stranded(c, id) && Step(c, e).Some?
    ensures Stranded(Step(c, e).value, id)
  {
    hide Placed, HandleFrame;
    if e.Drain? { assert Owed(c, e.id) && c.conn.inflight[e.id].ready == e.id; }
  }

  lemma {:induction false} StrandedRun(c: Client, events: seq<Event>, id: Id)
    requires Inv(c) && Stranded(c, id) && Run(c, events).Some?
    ensures Stranded(Run(c, events).value, id)
    decreases |events|
  {
    hide Inv, Step, Stranded;
    if events != [] {
      StepKeeps(c, events[0]);
      StrandedStays(c, events[0], id);
      StrandedRun(Step(c, events[0]).value, events[1..], id);
    }
  }

  ghost predicate GetsReply(c: Client, events: seq<Event>, id: Id) {
    Run(c, events).Some? && RepliesTo(Run(c, events).value.conn, id) != []
  }

  /** Exactly which waiting calls can still be answered once the loop has left, in every run:
      those in flight that the deferred loop has not reached. A call still queued, or queued
      later, waits forever. */
  lemma AnsweredAfterLeaving(events: seq<Event>, id: Id)
    requires Run(INIT, events).Some?
    requires var c := Run(INIT, events).value; !c.loop.Serving? && RepliesTo(c.conn, id) == []
    ensures var c := Run(INIT, events).value;
      && ((exists more :: GetsReply(c, more, id)) <==> Owed(c, id))
      && ((exists i :: 0 <= i < |c.queue| && c.queue[i].req.id == id) ==> !Owed(c, id))
  {
    hide Run, Step, Owed, Answered, ReturnedOk, OwnAnswers;
    InitInv();
    RunKeeps(INIT, events);
    var c := Run(INIT, events).value;
    if Owed(c, id) {
      DrainReplies(c, id);
    } else {
      forall more | Run(c, more).Some? ensures !GetsReply(c, more, id) {
        StrandedRun(c, more, id);
      }
    }
    if i :| 0 <= i < |c.queue| && c.queue[i].req.id == id {
      QueuedIsNotOwed(c, i);
    }
  }

  lemma DrainReplies(c: Client, id: Id)
    requires Inv(c) && !c.loop.Serving? && Owed(c, id)
    ensures GetsReply(c, [Drain(id)], id)
  {
    var d := Step(c, Drain(id)).value;
    assert c.conn.inflight[id].ready == id;
    assert Run(d, [Drain(id)][1..]) == Some(d);
  }

  lemma QueuedIsNotOwed(c: Client, i: nat)
    requires Inv(c) && i < |c.queue|
    ensures !Owed(c, c.queue[i].req.id)
  {
  }

  /** A caller whose request entered the queue as the loop left waits forever. */
  lemma QueuedCallIsStranded(call: Call)
    requires CallName(call.name)
    ensures var r := Run(INIT, [BeginCall(call), Enqueue(1), Leave, CloseExiting]);
      r.Some? && r.value.loop.Exited? && Stranded(r.value, 1) && r.value.queue == [RequestOf(1, call)]
  {
    hide CallName;
    var events := [BeginCall(call), Enqueue(1), Leave, CloseExiting];
    assert events[1..] == [Enqueue(1), Leave, CloseExiting] && events[1..][1..] == [Leave, CloseExiting];
    var c1 := Step(INIT, events[0]).value;
    var c2 := Step(c1, Enqueue(1)).value;
    var c3 := Step(c2, Leave).value;
    var c4 := Step(c3, CloseExiting).value;
    assert Run(c4, []) == Some(c4);
    assert [CloseExiting][1..] == [];
    assert Run(c3, [CloseExiting]) == Some(c4);
    assert [Leave, CloseExiting][1..] == [CloseExiting];
    assert Run(c2, [Leave, CloseExiting]) == Some(c4);
  }

  // ------------------------------------------------- where every call is

  ghost predicate Queued(c: Client, id: Id) {
    exists i :: 0 <= i < |c.queue| && c.queue[i].req.id == id
  }

  ghost predicate HasGivenUp(c: Client, id: Id) {
    id in c.returned && c.returned[id].GaveUp?
  }

  ghost predicate Somewhere(c: Client, id: Id) {
    id in c.entering || Queued(c, id) || Taken(c, id) || HasGivenUp(c, id)
  }

  /** No call is forgotten, and a call that was given up is nowhere else. */
  ghost predicate Accounted(c: Client) {
    && |c.queue| <= 100
    && (forall id :: id in c.calls ==> Somewhere(c, id))
    && (forall id :: HasGivenUp(c, id) ==>
          c.loop.Exited? && id in c.calls && id !in c.entering && !Queued(c, id) && !Taken(c, id))
  }

  lemma EnqueueAccounts(c: Client, id: Id)
    requires Inv(c) && Accounted(c) && Step(c, Enqueue(id)).Some?
    ensures Accounted(Step(c, Enqueue(id)).value)
  {
    hide Inv, CallName;
    var d := Step(c, Enqueue(id)).value;
    assert d.queue[|c.queue|].req.id == id;
    forall x ensures (Queued(d, x) <==> Queued(c, x) || x == id) && (Taken(d, x) <==> Taken(c, x)) {
      if Queued(c, x) {
        var i :| 0 <= i < |c.queue| && c.queue[i].req.id == x;
        assert d.queue[i].req.id == x;
      }
    }
  }

  lemma TakeAccounts(c: Client)
    requires Inv(c) && Accounted(c) && Step(c, Take).Some?
    ensures Accounted(Step(c, Take).value)
  {
    hide Inv, CallName;
    var d, first := Step(c, Take).value, c.queue[0].req.id;
    assert d.taken[|c.taken|].id == first;
    forall x ensures Queued(c, x) ==> Queued(d, x) || x == first {
      if Queued(c, x) {
        var i :| 0 <= i < |c.queue| && c.queue[i].req.id == x;
        if i > 0 { assert d.queue[i - 1].req.id == x; }
      }
    }
    forall x ensures Taken(c, x) ==> Taken(d, x) {
      if Taken(c, x) {
        var i :| 0 <= i < |c.taken| && c.taken[i].id == x;
        assert d.taken[i].id == x;
      }
    }
    forall x | x in d.calls ensures Somewhere(d, x) {
      assert Somewhere(c, x);
    }
    assert forall x :: !HasGivenUp(c, x);
    assert forall x :: HasGivenUp(d, x) <==> HasGivenUp(c, x);
  }

  lemma GiveUpAccounts(c: Client, id: Id)
    requires Inv(c) && Accounted(c) && Step(c, GiveUp(id)).Some?
    ensures Accounted(Step(c, GiveUp(id)).value)
  {
    hide InflightOk, Answered, ReturnedOk, OwnAnswers, CallName;
    var d := Step(c, GiveUp(id)).value;
    EnteringIsNew(c, id);
    SamePlaces(c, d);
    assert forall x :: HasGivenUp(d, x) <==> HasGivenUp(c, x) || x == id;
  }

  lemma OtherEventAccounts(c: Client, e: Event)
    requires Inv(c) && Accounted(c) && Step(c, e).Some? && !e.Enqueue? && !e.Take? && !e.GiveUp?
    ensures Accounted(Step(c, e).value)
  {
    hide Inv, CallName, HandleFrame;
    var d := Step(c, e).value;
    SamePlaces(c, d);
    assert forall x :: HasGivenUp(d, x) <==> HasGivenUp(c, x);
    if e.BeginCall? {
      assert d.idCtr !in c.calls by { NewIdFresh(c); }
      forall x | x in d.calls ensures Somewhere(d, x) {
        if x != d.idCtr { assert Somewhere(c, x); }
      }
      forall x | HasGivenUp(d, x) ensures x in d.calls && x !in d.entering {
        assert HasGivenUp(c, x);
      }
    }
  }

  lemma NewIdFresh(c: Client)
    requires Inv(c)
    ensures c.idCtr + 1 !in c.calls
  {
  }

  lemma SamePlaces(c: Client, d: Client)
    requires d.queue == c.queue && d.taken == c.taken
    ensures forall id :: (Queued(d, id) <==> Queued(c, id)) && (Taken(d, id) <==> Taken(c, id))
  {
  }

  lemma EnteringIsNew(c: Client, id: Id)
    requires Inv(c) && id in c.entering
    ensures !Queued(c, id) && !Taken(c, id)
  {
  }

  lemma StepAccounts(c: Client, e: Event)
    requires Inv(c) && Accounted(c) && Step(c, e).Some?
    ensures Accounted(Step(c, e).value)
  {
    hide Inv, Step, Accounted;
    if e.Enqueue? {
      EnqueueAccounts(c, e.id);
    } else if e.Take? {
      TakeAccounts(c);
    } else if e.GiveUp? {
      GiveUpAccounts(c, e.id);
    } else {
      OtherEventAccounts(c, e);
    }
  }

  lemma {:induction false} RunAccounts(c: Client, events: seq<Event>)
    requires Inv(c) && Accounted(c) && Run(c, events).Some?
    ensures Accounted(Run(c, events).value)
    decreases |events|
  {
    hide Inv, Step, Accounted;
    if events != [] {
      StepKeeps(c, events[0]);
      StepAccounts(c, events[0]);
      RunAccounts(Step(c, events[0]).value, events[1..]);
    }
  }

  lemma InitAccounted()
    ensures Accounted(INIT)
  {
    assert forall id :: !HasGivenUp(INIT, id);
  }

  /** No call vanishes: in every run each call is still entering, in the queue of at most 100,
      taken by the loop, or given up; it is given up only after the loop has closed `exiting`,
      and then it was never queued and has no reply. A caller that is entering can go on
      exactly when the queue has room or the loop has exited. */
  lemma NoCallVanishes(events: seq<Event>, id: Id)
    requires Run(INIT, events).Some? && id in Run(INIT, events).value.calls
    ensures var c := Run(INIT, events).value;
      && |c.queue| <= 100
      && (id in c.entering || Queued(c, id) || Taken(c, id) || (id in c.returned && c.returned[id] == GaveUp))
      && (id in c.returned && c.returned[id] == GaveUp ==>
            c.loop.Exited? && !Queued(c, id) && !Taken(c, id) && RepliesTo(c.conn, id) == [])
      && (id in c.entering ==>
            ((Step(c, Enqueue(id)).Some? || Step(c, GiveUp(id)).Some?) <==> |c.queue| < 100 || c.loop.Exited?))
  {
    hide Run;
    InitInv();
    InitAccounted();
    RunKeeps(INIT, events);
    RunAccounts(INIT, events);
  }
}
