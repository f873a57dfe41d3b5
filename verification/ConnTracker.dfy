/** The connection tracker of main/httptest/server.go: a map from live connections to their
    state, a WaitGroup that must agree with it, and the close protocol. */
module ConnTracker {
  import opened Words

  type Conn = nat

  datatype ConnState = StateNew | StateActive | StateIdle | StateHijacked | StateClosed

  /** The fields guarded by `mu`, the WaitGroup counter, and the connections that have been
      told to close since they were last tracked. `serving` and `served` say whether goServe
      has passed its first and second wg.Add. */
  datatype Tracker = Tracker(
    conns: map<Conn, ConnState>,
    closed: bool,
    wg: int,
    told: set<Conn>,
    serving: bool,
    served: bool)

  const FRESH: Tracker := Tracker(map[], false, 0, {}, false, false)

  /** The result of a hook call: a new state, or the panic "invalid state transition". */
  datatype Hooked = Ok(after: Tracker) | Panic

  function CloseConn(t: Tracker, c: Conn): Tracker {
    t.(told := t.told + {c})
  }

  function Forget(t: Tracker, c: Conn): Tracker {
    if c in t.conns then t.(conns := t.conns - {c}, wg := t.wg - 1, told := t.told - {c}) else t
  }

  function Hook(t: Tracker, c: Conn, cs: ConnState): Hooked {
    match cs
    case StateNew =>
      if c in t.conns then Panic
      else
        var u := t.(wg := t.wg + 1, conns := t.conns[c := StateNew], told := t.told - {c});
        Ok(if t.closed then CloseConn(u, c) else u)
    case StateActive =>
      if c !in t.conns then Ok(t)
      else if t.conns[c] != StateNew && t.conns[c] != StateIdle then Panic
      else Ok(t.(conns := t.conns[c := StateActive]))
    case StateIdle =>
      if c in t.conns && t.conns[c] != StateActive then Panic
      else
        var u := if c in t.conns then t.(conns := t.conns[c := StateIdle]) else t;
        Ok(if t.closed then CloseConn(u, c) else u)
    case StateHijacked => Ok(Forget(t, c))
    case StateClosed => Ok(Forget(t, c))
  }

  ghost predicate Quiet(s: ConnState) {
    s.StateNew? || s.StateIdle?
  }

  /** The connections that are new or between requests. */
  ghost function QuietOnes(conns: map<Conn, ConnState>): set<Conn> {
    set c | c in conns && Quiet(conns[c])
  }

  /** Close, under the mutex: idle and new connections are told to close. A second call
      changes nothing. */
  ghost function Closing(t: Tracker): Tracker {
    if t.closed then t
    else t.(closed := true, told := t.told + QuietOnes(t.conns))
  }

  /** The states a tracked connection can be in. */
  predicate Live(s: ConnState) {
    s.StateNew? || s.StateActive? || s.StateIdle?
  }

  /** The transitions net/http reports for one connection; `None` is a connection not seen
      yet, and hijacked and closed are final. */
  predicate Legal(from: Option<ConnState>, to: ConnState) {
    match from
    case None => to.StateNew?
    case Some(StateNew) => to.StateActive? || to.StateClosed?
    case Some(StateActive) => to.StateIdle? || to.StateHijacked? || to.StateClosed?
    case Some(StateIdle) => to.StateActive? || to.StateClosed?
    case Some(StateHijacked) => false
    case Some(StateClosed) => false
  }

  function Tokens(t: Tracker): nat {
    (if t.serving then 1 else 0) + if t.served then 1 else 0
  }

  ghost predicate Inv(t: Tracker) {
    && t.wg == |t.conns| + Tokens(t)
    && (forall c :: c in t.conns ==> Live(t.conns[c]))
    && (t.closed ==> forall c :: c in t.conns && Quiet(t.conns[c]) ==> c in t.told)
    && (!t.closed ==> t.told == {})
  }

  lemma RemovedSize(m: map<Conn, ConnState>, c: Conn)
    requires c in m
    ensures |m - {c}| == |m| - 1
  {
    assert (m - {c}).Keys == m.Keys - {c};
  }

  lemma AddedSize(m: map<Conn, ConnState>, c: Conn, s: ConnState)
    ensures |m[c := s]| == if c in m then |m| else |m| + 1
  {
    assert m[c := s].Keys == m.Keys + {c};
    if c in m { assert m.Keys + {c} == m.Keys; }
  }

  lemma ForgetKeeps(t: Tracker, c: Conn)
    requires Inv(t)
    ensures Inv(Forget(t, c)) && Forget(t, c).conns == t.conns - {c}
  {
    if c in t.conns { RemovedSize(t.conns, c); }
  }

  lemma HookKeeps(t: Tracker, c: Conn, cs: ConnState)
    requires Inv(t) && Hook(t, c, cs).Ok?
    ensures Inv(Hook(t, c, cs).after)
  {
    if Live(cs) {
      AddedSize(t.conns, c, cs);
    } else {
      ForgetKeeps(t, c);
    }
  }

  /** What a report that does not panic does: no other connection changes, the reported one is
      tracked in the reported state unless it was unknown or the state is final, and once the
      server is closed a new or idle connection has been told to close. */
  ghost predicate Reported(t: Tracker, u: Tracker, c: Conn, cs: ConnState) {
    && u.conns - {c} == t.conns - {c}
    && (c in u.conns <==> cs == StateNew || (c in t.conns && (cs == StateActive || cs == StateIdle)))
    && (c in u.conns ==> u.conns[c] == cs)
    && (u.closed && (cs == StateNew || cs == StateIdle) ==> c in u.told)
  }

  lemma FinalIsForget(t: Tracker, c: Conn, cs: ConnState)
    ensures cs.StateHijacked? || cs.StateClosed? ==> Hook(t, c, cs) == Ok(Forget(t, c))
    ensures cs.StateNew? ==> (Hook(t, c, cs).Panic? <==> c in t.conns)
  {
  }

  lemma HookMeaning(t: Tracker, c: Conn, cs: ConnState)
    requires Inv(t) && Hook(t, c, cs).Ok?
    ensures Reported(t, Hook(t, c, cs).after, c, cs)
  {
  }

  /** Exactly which reports panic. */
  lemma PanicsExactly(t: Tracker, c: Conn, cs: ConnState)
    requires Inv(t)
    ensures Hook(t, c, cs).Panic? <==>
      && c in t.conns
      && Live(cs)
      && !Legal(Some(t.conns[c]), cs)
    ensures Hook(t, c, cs).Panic? <==> c in t.conns && Forbidden(t.conns[c], cs)
  {
  }

  /** A report no live connection makes in this state: it is new again, active again, or idle
      without having been active. */
  ghost predicate Forbidden(from: ConnState, to: ConnState) {
    to == StateNew || (to == StateActive && from == StateActive) || (to == StateIdle && from != StateActive)
  }

  /** The new and idle connections of a list, in its order. */
  function QuietAmong(order: seq<Conn>, conns: map<Conn, ConnState>): seq<Conn>
    requires forall c :: c in order ==> c in conns
  {
    if order == [] then []
    else
      var init, last := order[..|order| - 1], order[|order| - 1];
      QuietAmong(init, conns) + if conns[last] == StateIdle || conns[last] == StateNew then [last] else []
  }

  /** In a list without repetitions each new or idle connection is selected exactly once, and
      no other is selected. */
  lemma {:induction false} QuietAmongOnce(order: seq<Conn>, conns: map<Conn, ConnState>)
    requires forall c :: c in order ==> c in conns
    requires forall j, k :: 0 <= j < k < |order| ==> order[j] != order[k]
    ensures var q := QuietAmong(order, conns);
      && (forall c :: c in q <==> c in order && Quiet(conns[c]))
      && (forall j, k :: 0 <= j < k < |q| ==> q[j] != q[k])
    decreases |order|
  {
    if order != [] {
      var init, last := order[..|order| - 1], order[|order| - 1];
      assert order == init + [last];
      assert last !in init;
      QuietAmongOnce(init, conns);
    }
  }

  lemma ClosingKeeps(t: Tracker)
    requires Inv(t)
    ensures Inv(Closing(t))
  {
  }

  class Server {
    var conns: map<Conn, ConnState>
    var closed: bool
    var wg: int
    var told: set<Conn>
    var closings: seq<Conn>  // every call of closeConn, oldest first
    var serving: bool
    var served: bool

    function State(): Tracker
      reads this
    {
      Tracker(conns, closed, wg, told, serving, served)
    }

    constructor ()
      ensures State() == FRESH && Inv(State()) && closings == []
    {
      conns, closed, wg, told, serving, served := map[], false, 0, {}, false, false;
      closings := [];
    }

    method CloseConnection(c: Conn)
      modifies `told, `closings
      ensures told == old(told) + {c} && closings == old(closings) + [c]
    {
      told := told + {c};
      closings := closings + [c];
    }

    /** A tracked connection leaves the map and releases its one token; for any other
        connection nothing happens. */
    method ForgetConn(c: Conn)
      requires Inv(State())
      modifies `conns, `wg, `told
      ensures Inv(State())
      ensures conns == old(conns) - {c}
      ensures wg == old(wg) - if c in old(conns) then 1 else 0
      ensures State() == Forget(old(State()), c)
    {
      if c in conns {
        RemovedSize(conns, c);
        conns := conns - {c};
        wg := wg - 1;
        told := told - {c};
      }
    }

    method Arrives(c: Conn) returns (panics: bool)
      modifies `conns, `wg, `told, `closings
      ensures panics <==> c in old(conns)
      ensures panics ==> conns == old(conns) && told == old(told) && wg == old(wg) + 1
      ensures !panics ==> Hook(old(State()), c, StateNew) == Ok(State())
      ensures closings == old(closings) + if !panics && closed then [c] else []
    {
      panics := false;
      wg := wg + 1;
      if c in conns {
        return true;
      }
      conns := conns[c := StateNew];
      told := told - {c};
      if closed {
        CloseConnection(c);
      }
    }

    method BecomesActive(c: Conn) returns (panics: bool)
      modifies `conns
      ensures panics <==> Hook(old(State()), c, StateActive).Panic?
      ensures panics ==> conns == old(conns)
      ensures !panics ==> Hook(old(State()), c, StateActive) == Ok(State())
    {
      panics := false;
      if c in conns {
        var oldState := conns[c];
        if oldState != StateNew && oldState != StateIdle {
          return true;
        }
        conns := conns[c := StateActive];
      }
    }

    method BecomesIdle(c: Conn) returns (panics: bool)
      modifies `conns, `told, `closings
      ensures panics <==> Hook(old(State()), c, StateIdle).Panic?
      ensures panics ==> conns == old(conns) && told == old(told)
      ensures !panics ==> Hook(old(State()), c, StateIdle) == Ok(State())
      ensures closings == old(closings) + if !panics && closed then [c] else []
    {
      panics := false;
      if c in conns {
        var oldState := conns[c];
        if oldState != StateActive {
          return true;
        }
        conns := conns[c := StateIdle];
      }
      if closed {
        CloseConnection(c);
      }
    }

    /** The ConnState hook panics exactly on a report that the lifecycle of a tracked
        connection forbids. Otherwise the counter keeps agreeing with the map and the report
        takes effect on its one connection. A panic leaves map and messages alone; for a
        repeated StateNew the counter has been raised by then. */
    method OnConnState(c: Conn, cs: ConnState) returns (panics: bool)
      requires Inv(State())
      modifies `conns, `wg, `told, `closings
      ensures panics <==> c in old(conns) && Forbidden(old(conns)[c], cs)
      ensures panics ==> conns == old(conns) && told == old(told) && wg == old(wg) + if cs.StateNew? then 1 else 0
      ensures !panics ==> Inv(State()) && Reported(old(State()), State(), c, cs)
      ensures closings == old(closings) +
        if !panics && closed && (cs == StateNew || cs == StateIdle) then [c] else []
    {
      hide Inv, Hook, Legal, Live, Reported, Forget, Forbidden, Quiet, CloseConn;
      PanicsExactly(State(), c, cs);
      FinalIsForget(State(), c, cs);
      if Hook(State(), c, cs).Ok? {
        HookKeeps(State(), c, cs);
        HookMeaning(State(), c, cs);
      }
      panics := false;
      match cs {
        case StateNew => panics := Arrives(c);
        case StateActive => panics := BecomesActive(c);
        case StateIdle => panics := BecomesIdle(c);
        case StateHijacked => ForgetConn(c);
        case StateClosed => ForgetConn(c);
      }
    }

    /** The loop of Close. */
    method CloseQuiet(order: seq<Conn>)
      requires forall c :: c in order <==> c in conns
      modifies `told, `closings
      ensures told == old(told) + QuietOnes(conns)
      ensures closings == old(closings) + QuietAmong(order, conns)
    {
      for i := 0 to |order|
        invariant forall c :: c in told <==> c in old(told) || (c in order[..i] && Quiet(conns[c]))
        invariant closings == old(closings) + QuietAmong(order[..i], conns)
      {
        var c := order[i];
        assert order[..i + 1][..i] == order[..i] && order[..i + 1] == order[..i] + [c];
        var st := conns[c];
        if st == StateIdle || st == StateNew {
          CloseConnection(c);
        }
      }
      assert order[..|order|] == order;
    }

    /** Close up to its wait, ranging over the tracked connections in any `order`. The first
        call closes each new or idle connection exactly once and no other; a later call closes
        none. */
    method Close(order: seq<Conn>)
      requires Inv(State())
      requires forall c :: c in order <==> c in conns
      requires forall i, j :: 0 <= i < j < |order| ==> order[i] != order[j]
      modifies `closed, `told, `closings
      ensures Inv(State()) && closed
      ensures State() == Closing(old(State()))
      ensures old(closings) <= closings
      ensures var calls := closings[|old(closings)|..];
        && (forall c :: c in calls <==>
              !old(closed) && c in conns && (conns[c] == StateNew || conns[c] == StateIdle))
        && (forall i, j :: 0 <= i < j < |calls| ==> calls[i] != calls[j])
    {
      hide Inv, QuietAmong;
      ClosingKeeps(State());
      QuietAmongOnce(order, conns);
      if !closed {
        closed := true;
        CloseQuiet(order);
        assert closings[|old(closings)|..] == QuietAmong(order, conns);
      }
    }
  }

  // -------------------------------------------------------------- whole runs

  /** Besides hook calls and Close: goServe passes its first wg.Add, Serve returns and its
      second wg.Add runs, and a wg.Wait returns (goServe's own, or one in Close). A panic in
      the hook is recovered by the connection's own goroutine, which reports StateClosed later,
      except for StateNew, which the accepting goroutine reports: there it ends the process. */
  datatype Event = OnState(c: Conn, cs: ConnState) | CloseServer | GoServe | ServeReturns | WaitReturns

  datatype Outcome = Running(t: Tracker) | Crashed | Impossible

  ghost function Step(t: Tracker, e: Event): Outcome {
    match e
    case OnState(c, cs) =>
      (match Hook(t, c, cs)
       case Ok(u) => Running(u)
       case Panic => if cs.StateNew? then Crashed else Running(t))
    case CloseServer => Running(Closing(t))
    case GoServe => if t.serving then Impossible else Running(t.(serving := true, wg := t.wg + 1))
    case ServeReturns =>
      if t.serving && !t.served then Running(t.(served := true, wg := t.wg + 1)) else Impossible
    case WaitReturns => if t.wg == 0 then Running(t) else Impossible
  }

  ghost function Run(t: Tracker, events: seq<Event>): Outcome
    decreases |events|
  {
    if events == [] then Running(t)
    else match Step(t, events[0])
      case Running(u) => Run(u, events[1..])
      case Crashed => Crashed
      case Impossible => Impossible
  }

  lemma HookSteady(t: Tracker, c: Conn, cs: ConnState)
    requires Hook(t, c, cs).Ok?
    ensures Hook(t, c, cs).after.serving == t.serving && Hook(t, c, cs).after.closed == t.closed
  {
  }

  lemma OtherStepsKeep(t: Tracker, e: Event)
    requires Inv(t) && Step(t, e).Running? && (e.OnState? ==> Hook(t, e.c, e.cs).Panic?)
    ensures Inv(Step(t, e).t)
    ensures t.serving ==> Step(t, e).t.serving
    ensures t.closed ==> Step(t, e).t.closed
  {
  }

  lemma StepKeeps(t: Tracker, e: Event)
    requires Inv(t) && Step(t, e).Running?
    ensures Inv(Step(t, e).t)
    ensures t.serving ==> Step(t, e).t.serving
    ensures t.closed ==> Step(t, e).t.closed
  {
    hide Inv, Hook;
    if e.OnState? && Hook(t, e.c, e.cs).Ok? {
      HookKeeps(t, e.c, e.cs);
      HookSteady(t, e.c, e.cs);
    } else {
      OtherStepsKeep(t, e);
    }
  }

  lemma {:induction false} RunKeeps(t: Tracker, events: seq<Event>)
    requires Inv(t) && Run(t, events).Running?
    ensures Inv(Run(t, events).t)
    decreases |events|
  {
    hide Inv, Step;
    if events != [] {
      StepKeeps(t, events[0]);
      RunKeeps(Step(t, events[0]).t, events[1..]);
    }
  }

  /** Counter agreement over whole runs: the WaitGroup counter is the number of tracked
      connections plus goServe's tokens, so it never goes negative. */
  lemma CounterAgrees(events: seq<Event>)
    requires Run(FRESH, events).Running?
    ensures var t := Run(FRESH, events).t; t.wg == |t.conns| + Tokens(t) && t.wg >= 0
  {
    RunKeeps(FRESH, events);
  }

  /** Exactly when a wait can return, in every run: goServe has not started and nothing is
      tracked. Once goServe has started neither Start nor a Close that reaches its wait
      returns. */
  lemma WaitNeverReturns(events: seq<Event>)
    requires Run(FRESH, events).Running?
    ensures var t := Run(FRESH, events).t;
      && (Step(t, WaitReturns).Running? <==> !t.serving && !t.served && t.conns == map[])
      && (t.serving ==> t.wg >= 1)
  {
    RunKeeps(FRESH, events);
    var t := Run(FRESH, events).t;
    assert |t.conns| == 0 ==> t.conns == map[];
  }

  /** Runs in which the documented wait for outstanding requests fails: a served and closed
      server with no connection at all still cannot finish Close, even once Serve has returned,
      which adds a second token. */
  lemma IdleServerCannotClose()
    ensures var r := Run(FRESH, [GoServe, CloseServer]);
      r.Running? && r.t.closed && r.t.conns == map[] && r.t.wg == 1 && Step(r.t, WaitReturns).Impossible?
    ensures var r := Run(FRESH, [GoServe, ServeReturns, CloseServer]);
      r.Running? && r.t.closed && r.t.conns == map[] && r.t.wg == 2 && Step(r.t, WaitReturns).Impossible?
  {
    assert [GoServe, CloseServer][1..] == [CloseServer] && [CloseServer][1..] == [];
    assert [GoServe, ServeReturns, CloseServer][1..] == [ServeReturns, CloseServer];
    assert [ServeReturns, CloseServer][1..] == [CloseServer];
  }

  /** Close safety: in every state reached after Close, including by connections that arrive
      or become idle later, every tracked connection that is new or idle has been told to
      close. Before Close none has. */
  lemma CloseSafety(events: seq<Event>)
    requires Run(FRESH, events).Running?
    ensures var t := Run(FRESH, events).t;
      && (t.closed ==> forall c :: c in t.conns && (t.conns[c] == StateNew || t.conns[c] == StateIdle) ==> c in t.told)
      && (!t.closed ==> t.told == {})
  {
    RunKeeps(FRESH, events);
  }

  // ------------------------------------------------------- net/http lifecycle

  function Seen(life: map<Conn, ConnState>, c: Conn): Option<ConnState> {
    if c in life then Some(life[c]) else None
  }

  /** Every reported transition is one net/http makes. */
  ghost predicate Lawful(life: map<Conn, ConnState>, events: seq<Event>)
    decreases |events|
  {
    events == [] ||
    match events[0]
    case OnState(c, cs) => Legal(Seen(life, c), cs) && Lawful(life[c := cs], events[1..])
    case _ => Lawful(life, events[1..])
  }

  /** The map holds exactly the live connections, in the state last reported. */
  ghost predicate Tracks(t: Tracker, life: map<Conn, ConnState>) {
    forall c :: c in t.conns <==> (c in life && Live(life[c]))
  }

  ghost predicate SameStates(t: Tracker, life: map<Conn, ConnState>) {
    forall c :: c in t.conns && c in life ==> t.conns[c] == life[c]
  }

  lemma LawfulHook(t: Tracker, life: map<Conn, ConnState>, c: Conn, cs: ConnState)
    requires Tracks(t, life) && SameStates(t, life) && Legal(Seen(life, c), cs)
    ensures Hook(t, c, cs).Ok?
    ensures Tracks(Hook(t, c, cs).after, life[c := cs]) && SameStates(Hook(t, c, cs).after, life[c := cs])
  {
  }

  /** No report in the run panics. */
  ghost predicate PanicFree(t: Tracker, events: seq<Event>)
    decreases |events|
  {
    events == [] ||
    (&& (events[0].OnState? ==> Hook(t, events[0].c, events[0].cs).Ok?)
     && (Step(t, events[0]).Running? ==> PanicFree(Step(t, events[0]).t, events[1..])))
  }

  lemma {:induction false} LawfulRun(t: Tracker, life: map<Conn, ConnState>, events: seq<Event>)
    requires Tracks(t, life) && SameStates(t, life) && Lawful(life, events)
    ensures PanicFree(t, events) && !Run(t, events).Crashed?
    decreases |events|
  {
    if events != [] {
      var e := events[0];
      if e.OnState? {
        LawfulHook(t, life, e.c, e.cs);
        LawfulRun(Hook(t, e.c, e.cs).after, life[e.c := e.cs], events[1..]);
      } else if Step(t, e).Running? {
        LawfulRun(Step(t, e).t, life, events[1..]);
      }
    }
  }

  /** Runs that obey the net/http lifecycle never reach the "invalid state transition" panics. */
  lemma LawfulRunsDoNotPanic(events: seq<Event>)
    requires Lawful(map[], events)
    ensures PanicFree(FRESH, events) && !Run(FRESH, events).Crashed?
  {
    LawfulRun(FRESH, map[], events);
  }
}
