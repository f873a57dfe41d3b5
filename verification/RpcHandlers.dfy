/** The client's channel handlers in the running system: which caller hears a channel id. */
module RpcHandlers {
  import opened Words
  import opened RpcMessages
  import opened RpcSystem
  import opened RpcStreams
  import opened RpcTheorems
  import C = RpcClient
  import D = Dispatch

  /** The response at `j` has been read by a streaming caller and its result counts as `n`. */
  ghost predicate Announces(s: System, j: nat, n: ChanId) {
    && j < s.read && j < |s.down| && s.down[j].Resp?
    && s.down[j].id in s.client.calls && s.client.calls[s.down[j].id].sink
    && (s.down[j].result == Some(Number(n)) || (n == 0 && s.down[j].result == Some(Null)))
  }

  ghost predicate Latest(s: System, j: nat, n: ChanId) {
    Announces(s, j, n) && forall k :: j < k < s.read ==> !Announces(s, k, n)
  }

  /** The handler for `n` is the one of the caller that the response at `j` answers. */
  ghost predicate HandledFor(s: System, j: nat, n: ChanId) {
    && j < |s.down| && s.down[j].Resp?
    && n in s.client.conn.chanHandlers && s.client.conn.chanHandlers[n] == s.down[j].id
  }

  /** The caller last told the number has its handler there. */
  ghost predicate HandlersRight(s: System) {
    forall j: nat, n: ChanId :: Latest(s, j, n) ==> HandledFor(s, j, n)
  }

  /** A response on the wire answers a call that has been made. */
  lemma ReadIsKnown(s: System, j: nat)
    requires C.Inv(s.client) && TasksOk(s) && AnswersOk(s) && j < |s.down| && s.down[j].Resp?
    ensures s.down[j].id in s.client.calls
  {
    assert Backed(s, s.down[j]);
    var t :| 0 <= t < |s.tasks| && Past(s.tasks[t].phase) && RespFrame(s.tasks[t]) == s.down[j];
    assert s.tasks[t].req == s.client.taken[t];
  }

  lemma CallsGrow(c: C.Client, e: C.Event, id: Id)
    requires C.Inv(c) && C.Step(c, e).Some? && id in c.calls
    ensures id in C.Step(c, e).value.calls && C.Step(c, e).value.calls[id] == c.calls[id]
  {
    C.CallsStable(c, e, id);
  }

  /** Only a frame can change the handlers. */
  lemma HandlersStay(c: C.Client, e: C.Event)
    requires C.Step(c, e).Some? && !e.Incoming?
    ensures C.Step(c, e).value.conn.chanHandlers == c.conn.chanHandlers
  {
  }

  lemma SameAnnouncements(s: System, u: System, e: C.Event, j: nat, n: ChanId)
    requires C.Inv(s.client) && TasksOk(s) && AnswersOk(s)
    requires C.Step(s.client, e).Some? && u.client == C.Step(s.client, e).value
    requires u.down == s.down && j < s.read <= u.read
    ensures Announces(u, j, n) <==> Announces(s, j, n)
  {
    hide C.Inv, C.Step, TasksOk, AnswersOk;
    if j < |s.down| && s.down[j].Resp? {
      ReadIsKnown(s, j);
      CallsGrow(s.client, e, s.down[j].id);
    }
  }

  lemma CallerEventHandlers(svc: D.Service, s: System, e: C.Event)
    requires SysInv(s) && HandlersRight(s) && SysStep(svc, s, OfClient(e)).Some?
    ensures HandlersRight(SysStep(svc, s, OfClient(e)).value)
  {
    hide C.Inv, C.Step, StreamsOk, Settled, TasksOk, AnswersOk, Announces;
    var u := SysStep(svc, s, OfClient(e)).value;
    HandlersStay(s.client, e);
    forall j: nat, n: ChanId | Latest(u, j, n) ensures HandledFor(u, j, n) {
      InRead(u, j, n);
      forall k: nat | k < s.read ensures Announces(u, k, n) <==> Announces(s, k, n) {
        SameAnnouncements(s, u, e, k, n);
      }
      assert Latest(s, j, n);
    }
  }

  lemma InRead(s: System, j: nat, n: ChanId)
    requires Announces(s, j, n)
    ensures j < s.read && j < |s.down| && s.down[j].Resp?
  {
  }

  /** What reading a frame does to the handlers. */
  lemma ReadHandlers(s: System)
    requires SysInv(s) && ClientRead(s).Some?
    ensures var u := ClientRead(s).value;
      forall n :: n in u.client.conn.chanHandlers ==> n in s.client.conn.chanHandlers || Announces(u, s.read, n)
    ensures var u := ClientRead(s).value;
      forall n :: if Announces(u, s.read, n)
                  then n in u.client.conn.chanHandlers && u.client.conn.chanHandlers[n] == s.down[s.read].id
                  else n in s.client.conn.chanHandlers ==>
                    n in u.client.conn.chanHandlers && u.client.conn.chanHandlers[n] == s.client.conn.chanHandlers[n]
  {
    hide TasksOk, StreamsOk, AnswersOk, Settled, C.RepliesTo, C.HandleChanMessage, C.HandleChanClose;
    var w := s.down[s.read];
    match w {
      case Garbage =>
      case Notify(_) => UnheardStep(s, s.read);
      case Resp(id, _, _) =>
        NextIsInFlight(s);
    }
  }

  lemma NextIsInFlight(s: System)
    requires SysInv(s) && s.client.loop.Serving? && s.read < |s.down| && s.down[s.read].Resp?
    ensures var id := s.down[s.read].id;
      && id in s.client.calls && id in s.client.conn.inflight
      && s.client.conn.inflight[id].ready == id && s.client.conn.inflight[id].sink == s.client.calls[id].sink
  {
    hide TasksOk, StreamsOk, AnswersOk, Settled, C.RepliesTo;
    NextResponseIsOwed(s);
    assert C.Owed(s.client, s.down[s.read].id);
  }

  lemma ReadEventHandlers(svc: D.Service, s: System)
    requires SysInv(s) && HandlersRight(s) && SysStep(svc, s, ClientReads).Some?
    ensures HandlersRight(SysStep(svc, s, ClientReads).value)
  {
    hide C.Inv, C.Step, StreamsOk, Settled, TasksOk, AnswersOk, Announces;
    var u := SysStep(svc, s, ClientReads).value;
    var e := if s.down[s.read].Garbage? then C.Leave else C.Incoming(ToFrame(s.down[s.read]));
    ReadHandlers(s);
    forall j: nat, n: ChanId | Latest(u, j, n) ensures HandledFor(u, j, n) {
      InRead(u, j, n);
      if j < s.read {
        forall k: nat | k < s.read ensures Announces(u, k, n) <==> Announces(s, k, n) {
          SameAnnouncements(s, u, e, k, n);
        }
        assert Latest(s, j, n);
        assert !Announces(u, s.read, n);
      }
    }
  }

  lemma ServerEventHandlers(svc: D.Service, s: System, e: SysEvent)
    requires HandlersRight(s) && SysStep(svc, s, e).Some? && !e.OfClient? && !e.ClientReads? && s.read <= |s.down|
    ensures HandlersRight(SysStep(svc, s, e).value)
  {
    var u := SysStep(svc, s, e).value;
    assert s.down <= u.down && u.read == s.read && u.client == s.client;
    SameWireHandlers(s, u);
  }

  lemma SameWireHandlers(s: System, u: System)
    requires HandlersRight(s) && s.down <= u.down && u.read == s.read <= |s.down| && u.client == s.client
    ensures HandlersRight(u)
  {
    forall j: nat, n: ChanId | Latest(u, j, n) ensures HandledFor(u, j, n) {
      forall k: nat ensures Announces(u, k, n) <==> Announces(s, k, n) {
        if k < s.read { assert u.down[k] == s.down[k]; }
      }
      assert Latest(s, j, n);
    }
  }

  lemma StepHandlers(svc: D.Service, s: System, e: SysEvent)
    requires SysInv(s) && HandlersRight(s) && SysStep(svc, s, e).Some?
    ensures HandlersRight(SysStep(svc, s, e).value)
  {
    hide HandlersRight, SysStep;
    if e.OfClient? {
      CallerEventHandlers(svc, s, e.event);
    } else if e.ClientReads? {
      ReadEventHandlers(svc, s);
    } else {
      ReadInRange(s);
      ServerEventHandlers(svc, s, e);
    }
  }

  lemma {:induction false} RunHandlers(svc: D.Service, s: System, events: seq<SysEvent>)
    requires SysInv(s) && HandlersRight(s) && SysRun(svc, s, events).Some?
    ensures HandlersRight(SysRun(svc, s, events).value)
    decreases |events|
  {
    hide SysInv, SysStep, HandlersRight;
    if events != [] {
      SysStepKeeps(svc, s, events[0]);
      StepHandlers(svc, s, events[0]);
      RunHandlers(svc, SysStep(svc, s, events[0]).value, events[1..]);
    }
  }

  // ------------------------------------------------------------ main results

  /** Every response read by a caller that wants a stream comes from a method that streams. */
  ghost predicate SinksGetStreams(s: System) {
    forall j: nat :: j < s.read && ReadBySink(s, j) ==> FromStream(s, j)
  }

  ghost predicate ReadBySink(s: System, j: nat) {
    && j < |s.down| && s.down[j].Resp? && s.down[j].result.Some?
    && s.down[j].id in s.client.calls && s.client.calls[s.down[j].id].sink
  }

  ghost predicate FromStream(s: System, j: nat) {
    && j < |s.down|
    && exists t :: 0 <= t < |s.tasks| && Past(s.tasks[t].phase) && Streams(s.tasks[t])
                   && RespFrame(s.tasks[t]) == s.down[j]
  }

  /** A stream finds its caller: in every interleaving, a response read by a streaming caller
      with the number `n` for its result is the one reply on that caller's channel, and `n` is
      handled for that caller unless a later response to a streaming caller bears it too. None
      does when every streaming caller calls a method that streams. */
  lemma StreamFindsCaller(svc: D.Service, events: seq<SysEvent>, j: nat, n: ChanId)
    requires SysRun(svc, START_STATE, events).Some?
    requires var s := SysRun(svc, START_STATE, events).value;
      && j < s.read && j < |s.down| && s.down[j].Resp? && s.down[j].result == Some(Number(n))
      && s.down[j].id in s.client.calls && s.client.calls[s.down[j].id].sink
    ensures var s := SysRun(svc, START_STATE, events).value;
      var w := s.down[j];
      && C.RepliesTo(s.client.conn, w.id) == [C.Answer(w.id, Some(Number(n)), w.error)]
      && (SinksGetStreams(s) || (forall k :: j < k < s.read ==> !Announces(s, k, n)) ==>
            HandledFor(s, j, n))
  {
    hide SysRun, C.Inv, StreamsOk, TasksOk, C.RepliesTo, ChannelsOk, SinksGetStreams;
    ChannelsReached(svc, events);
    NoAnswerLost(svc, events, j);
    StartHandlers();
    StartInv();
    RunHandlers(svc, START_STATE, events);
    var s := SysRun(svc, START_STATE, events).value;
    if SinksGetStreams(s) { NumbersDistinct(s, j, n); }
    assert Announces(s, j, n);
    assert (forall k :: j < k < s.read ==> !Announces(s, k, n)) ==> Latest(s, j, n);
  }

  lemma StartHandlers()
    ensures HandlersRight(START_STATE)
  {
  }

  /** Different streaming tasks answer with different numbers. */
  lemma NumbersDistinct(s: System, j: nat, n: ChanId)
    requires TasksOk(s) && AnswersOk(s) && ChannelsOk(s) && SinksGetStreams(s) && Announces(s, j, n)
    ensures forall k :: j < k < s.read ==> !Announces(s, k, n)
  {
    forall k | j < k < s.read ensures !Announces(s, k, n) {
      if Announces(s, k, n) { SameNumber(s, j, k, n); }
    }
  }

  lemma SameNumber(s: System, j: nat, k: nat, n: ChanId)
    requires TasksOk(s) && ChannelsOk(s) && SinksGetStreams(s) && Announces(s, j, n) && Announces(s, k, n)
    ensures s.down[j].id == s.down[k].id
  {
    var t := StreamOf(s, j, n);
    var v := StreamOf(s, k, n);
  }

  lemma StreamOf(s: System, j: nat, n: ChanId) returns (t: nat)
    requires TasksOk(s) && ChannelsOk(s) && SinksGetStreams(s) && Announces(s, j, n)
    ensures t < |s.tasks| && s.tasks[t].chan == Some(n) && Past(s.tasks[t].phase) && RespFrame(s.tasks[t]) == s.down[j]
  {
    assert ReadBySink(s, j) && FromStream(s, j);
    t :| 0 <= t < |s.tasks| && Past(s.tasks[t].phase) && Streams(s.tasks[t]) && RespFrame(s.tasks[t]) == s.down[j];
    assert ChannelOk(s, s.tasks[t]);
  }
}
