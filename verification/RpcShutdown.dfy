/** How callers leave: from which states a call can still return to its caller. */
module RpcShutdown {
  import opened Words
  import opened RpcMessages
  import opened RpcClient

  ghost predicate Leads(c: Client, d: Client) {
    exists events :: Run(c, events) == Some(d)
  }

  lemma LeadsSelf(c: Client)
    ensures Leads(c, c)
  {
    assert Run(c, []) == Some(c);
  }

  lemma {:induction false} RunAppend(c: Client, a: seq<Event>, b: seq<Event>)
    requires Run(c, a).Some?
    ensures Run(c, a + b) == Run(Run(c, a).value, b)
    decreases |a|
  {
    hide Step;
    if a == [] {
      assert a + b == b;
    } else {
      assert (a + b)[1..] == a[1..] + b;
      RunAppend(Step(c, a[0]).value, a[1..], b);
    }
  }

  /** One more event. */
  lemma LeadsOn(c: Client, e: Event, d: Client)
    requires Step(c, e).Some? && Leads(Step(c, e).value, d)
    ensures Leads(c, d)
  {
    hide Step;
    var rest :| Run(Step(c, e).value, rest) == Some(d);
    assert ([e] + rest)[1..] == rest;
    assert Run(c, [e] + rest) == Some(d);
  }

  /** What is true of a state and lasts. */
  ghost predicate Good(c: Client) {
    Inv(c) && Accounted(c)
  }

  lemma StepGood(c: Client, e: Event)
    requires Good(c) && Step(c, e).Some?
    ensures Good(Step(c, e).value)
  {
    hide Inv, Accounted, Step;
    StepKeeps(c, e);
    StepAccounts(c, e);
  }

  /** The events of leaving change neither calls nor queue, nor who has returned. */
  ghost predicate SameCallers(c: Client, d: Client) {
    d.calls == c.calls && d.entering == c.entering && d.queue == c.queue && d.returned == c.returned
  }

  ghost predicate InLeft(c: Client, id: Id) {
    c.loop.Draining? && id in c.loop.left
  }

  lemma LeftIsInflight(c: Client, id: Id)
    requires Inv(c) && InLeft(c, id)
    ensures id in c.conn.inflight
  {
  }

  lemma Member(ids: set<Id>) returns (id: Id)
    requires ids != {}
    ensures id in ids
  {
    NoMember(ids);
    id :| id in ids;
  }

  lemma NoMember(ids: set<Id>)
    ensures ids == {} || exists id :: id in ids
  {
    assert (forall id :: id !in ids) ==> ids == {};
  }

  /** The deferred loop reaches its end. */
  lemma {:induction false} DrainAll(c: Client) returns (d: Client)
    requires Good(c) && c.loop.Draining?
    ensures Leads(c, d) && Good(d) && d.loop.Exited? && SameCallers(c, d)
    decreases c.loop.left
  {
    hide Inv, Accounted, Run, Leads;
    if c.loop.left == {} {
      d := Step(c, CloseExiting).value;
      StepGood(c, CloseExiting);
      LeadsSelf(d);
      LeadsOn(c, CloseExiting, d);
    } else {
      var id := Member(c.loop.left);
      assert InLeft(c, id);
      LeftIsInflight(c, id);
      StepGood(c, Drain(id));
      d := DrainAll(Step(c, Drain(id)).value);
      LeadsOn(c, Drain(id), d);
    }
  }

  /** The loop can always be left for good. */
  lemma ExitLoop(c: Client) returns (d: Client)
    requires Good(c)
    ensures Leads(c, d) && Good(d) && d.loop.Exited? && SameCallers(c, d)
  {
    hide Inv, Accounted, Run, Leads;
    match c.loop {
      case Serving =>
        StepGood(c, Leave);
        d := DrainAll(Step(c, Leave).value);
        LeadsOn(c, Leave, d);
      case Draining(_) => d := DrainAll(c);
      case Exited =>
        d := c;
        LeadsSelf(c);
    }
  }

  /** A serving loop can take all that is queued. */
  lemma {:induction false} TakeAll(c: Client) returns (d: Client)
    requires Good(c) && c.loop.Serving?
    ensures Leads(c, d) && Good(d) && d.queue == [] && d.calls == c.calls && d.returned == c.returned
    decreases |c.queue|
  {
    hide Inv, Accounted, Run, Leads;
    d := c;
    LeadsSelf(c);
    if c.queue != [] {
      StepGood(c, Take);
      d := TakeAll(Step(c, Take).value);
      LeadsOn(c, Take, d);
    }
  }

  lemma LeadsThrough(c: Client, d: Client, e: Client)
    requires Leads(c, d) && Leads(d, e)
    ensures Leads(c, e)
  {
    hide Run;
    var a :| Run(c, a) == Some(d);
    var b :| Run(d, b) == Some(e);
    RunAppend(c, a, b);
  }

  /** Once the loop has exited, a call that is not queued can return. */
  lemma LeaveExited(c: Client, id: Id) returns (d: Client)
    requires Good(c) && c.loop.Exited? && id in c.calls && !Queued(c, id)
    ensures Leads(c, d) && id in d.returned
  {
    hide Run, Leads, Placed, InflightOk, ReturnedOk, OwnAnswers, CallName;
    d := c;
    LeadsSelf(c);
    if id !in c.returned {
      var e := if id in c.entering then GiveUp(id) else Return(id);
      assert Somewhere(c, id);
      assert id !in c.entering ==> Taken(c, id) && |RepliesTo(c.conn, id)| == 1;
      d := Step(c, e).value;
      LeadsSelf(d);
      LeadsOn(c, e, d);
    }
  }

  lemma CanLeave(c: Client, id: Id) returns (d: Client)
    requires Good(c) && id in c.calls && (c.loop.Serving? || !Queued(c, id))
    ensures Leads(c, d) && id in d.returned
  {
    hide Good, Run, Leads;
    var a := c;
    LeadsSelf(c);
    if c.loop.Serving? { a := TakeAll(c); }
    var b := ExitLoop(a);
    LeadsThrough(c, a, b);
    d := LeaveExited(b, id);
    LeadsThrough(c, b, d);
  }

  /** A queued call that the loop will not take stays in the queue. */
  ghost predicate Stuck(c: Client, id: Id) {
    !c.loop.Serving? && Queued(c, id) && id !in c.returned
  }

  lemma StuckStays(c: Client, e: Event, id: Id)
    requires Inv(c) && Stuck(c, id) && Step(c, e).Some?
    ensures Stuck(Step(c, e).value, id)
  {
    hide InflightOk, Owed, ReturnedOk, OwnAnswers, CallName, HandleFrame;
    var i :| 0 <= i < |c.queue| && c.queue[i].req.id == id;
    assert !Taken(c, id) && id !in c.entering;
    assert RepliesTo(c.conn, id) == [];
    assert Step(c, e).value.queue[i].req.id == id;
  }

  lemma {:induction false} StuckRun(c: Client, events: seq<Event>, id: Id)
    requires Inv(c) && Stuck(c, id) && Run(c, events).Some?
    ensures Stuck(Run(c, events).value, id)
    decreases |events|
  {
    hide Inv, Step, Stuck;
    if events != [] {
      StepKeeps(c, events[0]);
      StuckStays(c, events[0], id);
      StuckRun(Step(c, events[0]).value, events[1..], id);
    }
  }

  /** Exactly which calls can still return, in every run: all of them while the loop serves, and
      once it has left, all but those that are in its queue. */
  lemma WhoCanReturn(events: seq<Event>, id: Id)
    requires Run(INIT, events).Some?
    requires var c := Run(INIT, events).value; id in c.calls && id !in c.returned
    ensures var c := Run(INIT, events).value;
      (exists d :: Leads(c, d) && id in d.returned) <==> c.loop.Serving? || !Queued(c, id)
  {
    hide Run, Accounted, Inv, Queued;
    InitInv();
    InitAccounted();
    RunKeeps(INIT, events);
    RunAccounts(INIT, events);
    var c := Run(INIT, events).value;
    if c.loop.Serving? || !Queued(c, id) {
      var d := CanLeave(c, id);
    } else {
      forall d | Leads(c, d) ensures id !in d.returned {
        var more :| Run(c, more) == Some(d);
        StuckRun(c, more, id);
      }
    }
  }
}
