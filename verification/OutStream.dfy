/** makeOutChan: the client's buffer between the event loop, which accepts streamed values,
    and a goroutine that hands them to the consumer. The sink starts the goroutine with the
    buffer's mutex still locked. Steps are interleaved arbitrarily; the remote side does not
    close the channel. */
module OutStream {
  import opened Words
  import opened RpcMessages

  /** Where a call of the sink stands: idle, waiting for the mutex, holding it, or holding
      it after the context was found alive. */
  datatype SinkPC = Idle | Wants(v: Value) | Holding(v: Value) | Checked(v: Value)

  /** Where a drainer stands: at its loop test holding the mutex, waiting on consumer or
      context, or past the select and waiting for the mutex. */
  datatype DrainPC = Testing | Selecting(front: nat) | Sent(front: nat) | Cancelled

  datatype Owner = Free | TheSink | Drainer(d: nat)

  /** List elements are named by the position at which their value was accepted. */
  datatype Stream = Stream(
    buf: seq<nat>,
    lock: Owner,
    sink: SinkPC,
    drainers: map<nat, DrainPC>,
    spawned: nat,
    cancelled: bool,
    accepted: seq<Value>,
    delivered: seq<Value>)

  const EMPTY: Stream := Stream([], Free, Idle, map[], 0, false, [], [])

  datatype Event =
    | SinkCall(v: Value)
    | SinkLock
    | SinkCheck
    | SinkPush
    | CancelContext
    | Test(d: nat)
    | Deliver(d: nat)
    | SeeDone(d: nat)
    | Relock(d: nat)

  predicate AtPC(s: Stream, d: nat, pc: DrainPC) {
    d in s.drainers && s.drainers[d] == pc
  }

  /** list.Remove of an element. */
  function Without(buf: seq<nat>, e: nat): seq<nat> {
    if buf == [] then [] else if buf[0] == e then buf[1..] else [buf[0]] + Without(buf[1..], e)
  }

  /** The state after an event, `None` when it cannot happen. */
  function Step(s: Stream, e: Event): Option<Stream> {
    match e
    case SinkCall(v) => if s.sink.Idle? then Some(s.(sink := Wants(v))) else None
    case SinkLock =>
      if s.sink.Wants? && s.lock.Free? then Some(s.(sink := Holding(s.sink.v), lock := TheSink)) else None
    case SinkCheck =>
      if !s.sink.Holding? then None
      else if s.cancelled then Some(s.(sink := Idle, lock := Free))
      else Some(s.(sink := Checked(s.sink.v)))
    case SinkPush =>
      if !s.sink.Checked? then None
      else
        var u := s.(sink := Idle, accepted := s.accepted + [s.sink.v], buf := s.buf + [|s.accepted|]);
        if |u.buf| > 1 then Some(u.(lock := Free))
        else Some(u.(lock := Drainer(s.spawned), drainers := s.drainers[s.spawned := Testing],
                     spawned := s.spawned + 1))
    case CancelContext => Some(s.(cancelled := true))
    case Test(d) =>
      if !AtPC(s, d, Testing) then None
      else if s.buf == [] then Some(s.(drainers := s.drainers - {d}, lock := Free))
      else Some(s.(drainers := s.drainers[d := Selecting(s.buf[0])], lock := Free))
    case Deliver(d) =>
      if d in s.drainers && s.drainers[d].Selecting? && s.drainers[d].front < |s.accepted|
      then Some(s.(drainers := s.drainers[d := Sent(s.drainers[d].front)],
                   delivered := s.delivered + [s.accepted[s.drainers[d].front]]))
      else None
    case SeeDone(d) =>
      if d in s.drainers && s.drainers[d].Selecting? && s.cancelled
      then Some(s.(drainers := s.drainers[d := Cancelled]))
      else None
    case Relock(d) =>
      if d in s.drainers && s.drainers[d].Sent? && s.lock.Free?
      then Some(s.(drainers := s.drainers[d := Testing], lock := Drainer(d),
                   buf := Without(s.buf, s.drainers[d].front)))
      else if AtPC(s, d, Cancelled) && s.lock.Free?
      then Some(s.(drainers := s.drainers[d := Testing], lock := Drainer(d), buf := []))
      else None
  }

  function Run(s: Stream, events: seq<Event>): Option<Stream>
    decreases |events|
  {
    if events == [] then Some(s)
    else
      var next := Step(s, events[0]);
      if next.None? then None else Run(next.value, events[1..])
  }

  // ------------------------------------------------------------------ invariant

  /** The mutex is held by a sink past its lock call or by a drainer at its loop test, and
      by nobody else. */
  ghost predicate LockOk(s: Stream) {
    && (s.lock.TheSink? <==> s.sink.Holding? || s.sink.Checked?)
    && (forall d :: d in s.drainers ==> (s.drainers[d].Testing? <==> s.lock == Drainer(d)))
    && (s.lock.Drainer? ==> s.lock.d in s.drainers)
  }

  /** At most one drainer; while the mutex is not with it, it is alive exactly when the
      buffer is not empty, and it works on the buffer's front. */
  ghost predicate DrainerOk(s: Stream) {
    && (forall d, e :: d in s.drainers && e in s.drainers ==> d == e)
    && (forall d :: d in s.drainers ==> d < s.spawned)
    && (s.buf != [] ==> exists d :: d in s.drainers)
    && (forall d :: d in s.drainers && !s.drainers[d].Testing? ==> s.buf != [])
    && (forall d :: d in s.drainers && s.drainers[d].Cancelled? ==> s.cancelled)
    && (forall d :: d in s.drainers && s.drainers[d].Selecting? ==> s.drainers[d].front == s.buf[0])
    && (forall d :: d in s.drainers && s.drainers[d].Sent? ==> s.drainers[d].front == s.buf[0])
  }

  /** The buffer holds the last accepted values, in order. */
  ghost predicate BufferOk(s: Stream) {
    && |s.buf| <= |s.accepted|
    && forall i :: 0 <= i < |s.buf| ==> s.buf[i] == |s.accepted| - |s.buf| + i
  }

  ghost predicate FrontSent(s: Stream) {
    exists d :: d in s.drainers && s.drainers[d].Sent?
  }

  /** How many accepted values have left the buffer for the consumer. */
  ghost function Gone(s: Stream): int {
    |s.accepted| - |s.buf| + if FrontSent(s) then 1 else 0
  }

  /** Nothing is skipped or reordered: delivered values are the first accepted ones, all up
      to the buffer unless a cancelled drainer has emptied it. */
  ghost predicate DeliveredOk(s: Stream) {
    && |s.delivered| <= |s.accepted|
    && s.delivered == s.accepted[..|s.delivered|]
    && (|s.delivered| == Gone(s) ||
        (s.cancelled && s.buf == [] && !s.sink.Checked?))
  }

  ghost predicate Inv(s: Stream) {
    LockOk(s) && DrainerOk(s) && BufferOk(s) && DeliveredOk(s)
  }

  lemma SinkKeeps(s: Stream, e: Event)
    requires Inv(s) && Step(s, e).Some? && (e.SinkCall? || e.SinkLock? || e.SinkCheck? || e.CancelContext?)
    ensures Inv(Step(s, e).value)
  {
    var u := Step(s, e).value;
    assert FrontSent(u) <==> FrontSent(s);
  }

  /** Pushing into a non-empty buffer leaves the one drainer alone; pushing into an empty
      one finds none alive and starts one. */
  lemma PushKeeps(s: Stream)
    requires Inv(s) && Step(s, SinkPush).Some?
    ensures Inv(Step(s, SinkPush).value)
  {
    var u := Step(s, SinkPush).value;
    if s.buf == [] {
      assert forall d :: d !in s.drainers;
      assert u.drainers[s.spawned] == Testing;
      assert !FrontSent(s) && !FrontSent(u);
    } else {
      assert FrontSent(u) <==> FrontSent(s);
    }
    assert u.accepted[..|s.delivered|] == s.accepted[..|s.delivered|];
  }

  lemma TestKeeps(s: Stream, d: nat)
    requires Inv(s) && Step(s, Test(d)).Some?
    ensures Inv(Step(s, Test(d)).value)
  {
    var u := Step(s, Test(d)).value;
    assert s.lock == Drainer(d);
    assert !FrontSent(s);
    assert !FrontSent(u);
    if s.buf != [] { assert d in u.drainers; }
  }

  lemma DeliverKeeps(s: Stream, d: nat)
    requires Inv(s) && Step(s, Deliver(d)).Some?
    ensures Inv(Step(s, Deliver(d)).value)
  {
    var u := Step(s, Deliver(d)).value;
    var front := s.drainers[d].front;
    assert !FrontSent(s);
    assert u.drainers[d].Sent? && FrontSent(u);
    assert front == |s.accepted| - |s.buf| == |s.delivered|;
    assert s.accepted[..front + 1] == s.accepted[..front] + [s.accepted[front]];
  }

  lemma SeeDoneKeeps(s: Stream, d: nat)
    requires Inv(s) && Step(s, SeeDone(d)).Some?
    ensures Inv(Step(s, SeeDone(d)).value)
  {
    var u := Step(s, SeeDone(d)).value;
    assert !FrontSent(s) && !FrontSent(u);
    assert d in u.drainers;
  }

  lemma RelockKeeps(s: Stream, d: nat)
    requires Inv(s) && Step(s, Relock(d)).Some?
    ensures Inv(Step(s, Relock(d)).value)
  {
    var u := Step(s, Relock(d)).value;
    assert u.drainers[d] == Testing;
    assert !FrontSent(u);
    if s.drainers[d].Sent? {
      assert FrontSent(s);
      assert u.buf == s.buf[1..];
    } else {
      assert s.drainers[d].Cancelled? && s.cancelled;
    }
  }

  lemma StepKeeps(s: Stream, e: Event)
    requires Inv(s) && Step(s, e).Some?
    ensures Inv(Step(s, e).value)
  {
    hide Inv, Step;
    match e
    case SinkCall(_) => SinkKeeps(s, e);
    case SinkLock => SinkKeeps(s, e);
    case SinkCheck => SinkKeeps(s, e);
    case SinkPush => PushKeeps(s);
    case CancelContext => SinkKeeps(s, e);
    case Test(d) => TestKeeps(s, d);
    case Deliver(d) => DeliverKeeps(s, d);
    case SeeDone(d) => SeeDoneKeeps(s, d);
    case Relock(d) => RelockKeeps(s, d);
  }

  lemma {:induction false} RunKeeps(s: Stream, events: seq<Event>)
    requires Inv(s) && Run(s, events).Some?
    ensures Inv(Run(s, events).value)
    decreases |events|
  {
    hide Inv, Step;
    if events != [] {
      StepKeeps(s, events[0]);
      RunKeeps(Step(s, events[0]).value, events[1..]);
    }
  }

  lemma EmptyInv()
    ensures Inv(EMPTY)
  {
  }

  // ------------------------------------------------------------ main results

  /** In every interleaving at most one drainer is alive, and a buffered value always has
      one, so none is stranded. */
  lemma OneDrainer(events: seq<Event>)
    requires Run(EMPTY, events).Some?
    ensures var s := Run(EMPTY, events).value;
      && (forall d, e :: d in s.drainers && e in s.drainers ==> d == e)
      && (s.buf != [] ==> exists d :: d in s.drainers)
  {
    EmptyInv();
    RunKeeps(EMPTY, events);
  }

  /** Whoever waits on the consumer does not hold the mutex, so the sink is never blocked by
      a slow consumer: the mutex is then free or with the sink itself. */
  lemma LockFreeWhileWaiting(events: seq<Event>, d: nat)
    requires Run(EMPTY, events).Some?
    requires var s := Run(EMPTY, events).value; d in s.drainers && s.drainers[d].Selecting?
    ensures !Run(EMPTY, events).value.lock.Drainer?
  {
    EmptyInv();
    RunKeeps(EMPTY, events);
  }

  /** The values of the list's elements that the consumer does not have yet. */
  ghost function Buffered(s: Stream): seq<Value>
    requires Inv(s)
  {
    var values := seq<Value>(|s.buf|, i requires 0 <= i < |s.buf| => s.accepted[s.buf[i]]);
    if FrontSent(s) then values[1..] else values
  }

  /** Nothing is lost, duplicated or reordered: delivered values are a prefix of the accepted
      ones in every interleaving, and until the context is cancelled delivered followed by
      buffered is exactly what was accepted. */
  lemma DeliveredInOrder(events: seq<Event>)
    requires Run(EMPTY, events).Some?
    ensures var s := Run(EMPTY, events).value;
      && s.delivered <= s.accepted
      && Inv(s)
      && (!s.cancelled ==> s.delivered + Buffered(s) == s.accepted)
  {
    EmptyInv();
    RunKeeps(EMPTY, events);
    var s := Run(EMPTY, events).value;
    if !s.cancelled {
      assert Buffered(s) == s.accepted[Gone(s)..];
    }
  }

  // -------------------------------------------------- what can always happen

  /** A waiting drainer can hand over, and what it hands over is the first value that the
      consumer does not have yet. */
  lemma ConsumerGetsNext(events: seq<Event>, d: nat)
    requires Run(EMPTY, events).Some?
    requires var s := Run(EMPTY, events).value; d in s.drainers && s.drainers[d].Selecting? && !s.cancelled
    ensures var s := Run(EMPTY, events).value;
      && |s.delivered| < |s.accepted|
      && Step(s, Deliver(d)).Some?
      && Step(s, Deliver(d)).value.delivered == s.delivered + [s.accepted[|s.delivered|]]
  {
    EmptyInv();
    RunKeeps(EMPTY, events);
    assert !FrontSent(Run(EMPTY, events).value);
  }

  ghost predicate Alive(s: Stream, d: nat) {
    d in s.drainers
  }

  /** Nothing is under way: no drainer, no call of the sink, nothing buffered or locked. */
  predicate Quiet(s: Stream) {
    s.buf == [] && s.lock.Free? && s.sink.Idle? && s.drainers == map[]
  }

  /** The value of a sink call that is under way, unless the cancelled context stops it. */
  function Coming(s: Stream): seq<Value> {
    match s.sink
    case Idle => []
    case Wants(v) => if s.cancelled then [] else [v]
    case Holding(v) => if s.cancelled then [] else [v]
    case Checked(v) => [v]
  }

  function SinkRank(s: Stream): nat {
    match s.sink
    case Idle => 0
    case Checked(_) => 1
    case Holding(_) => 2
    case Wants(_) => 3
  }

  function DrainRank(pc: DrainPC): nat {
    match pc
    case Testing => 4
    case Selecting(_) => 3
    case Cancelled => 2
    case Sent(_) => 1
  }

  ghost predicate InPhase(s: Stream, rank: nat) {
    exists d :: Alive(s, d) && DrainRank(s.drainers[d]) == rank
  }

  /** How far the one drainer is from taking the next element out of the buffer. */
  ghost function Effort(s: Stream): nat {
    if InPhase(s, 4) then 4 else if InPhase(s, 3) then 3 else if InPhase(s, 2) then 2
    else if InPhase(s, 1) then 1 else 0
  }

  lemma EffortIs(s: Stream, d: nat)
    requires Inv(s) && Alive(s, d)
    ensures Effort(s) == DrainRank(s.drainers[d])
  {
    assert forall e :: Alive(s, e) ==> e == d;
    assert InPhase(s, DrainRank(s.drainers[d]));
  }

  lemma NoEffort(s: Stream)
    requires forall d :: !Alive(s, d)
    ensures Effort(s) == 0
  {
  }

  /** A step of a kind that is never refused, and that brings the stream nearer to rest. */
  ghost predicate Nearer(s: Stream, u: Stream) {
    && Inv(u) && u.cancelled == s.cancelled
    && u.accepted + Coming(u) == s.accepted + Coming(s)
    && (u.cancelled ==> u.delivered == s.delivered)
    && (SinkRank(u) < SinkRank(s) ||
        (SinkRank(u) == SinkRank(s) && (|u.buf| < |s.buf| || (u.buf == s.buf && Effort(u) < Effort(s)))))
  }

  /** The sink's own next event, when it has the mutex or can get it. */
  lemma SinkStep(s: Stream) returns (e: Event)
    requires Inv(s) && !s.sink.Idle? && !s.lock.Drainer?
    ensures Step(s, e).Some? && Nearer(s, Step(s, e).value)
  {
    hide Inv, Effort;
    e := if s.sink.Wants? then SinkLock else if s.sink.Holding? then SinkCheck else SinkPush;
    LockParts(s);
    StepKeeps(s, e);
  }

  lemma LockParts(s: Stream)
    requires Inv(s)
    ensures LockOk(s)
  {
  }

  /** The drainer's next event: to the consumer, or out when the context is cancelled. */
  lemma DrainStep(s: Stream, d: nat) returns (e: Event)
    requires Inv(s) && Alive(s, d) && (s.sink.Idle? || s.lock.Drainer?)
    ensures Step(s, e).Some? && Nearer(s, Step(s, e).value)
  {
    hide Effort;
    e := match s.drainers[d]
      case Testing => Test(d)
      case Selecting(_) => if s.cancelled then SeeDone(d) else Deliver(d)
      case _ => Relock(d);
    StepKeeps(s, e);
    EffortIs(s, d);
    var u := Step(s, e).value;
    if Alive(u, d) { EffortIs(u, d); } else { NoEffort(u); }
  }

  /** Left alone, the stream comes to rest. */
  lemma {:induction false} Settle(s: Stream) returns (more: seq<Event>)
    requires Inv(s)
    ensures Run(s, more).Some?
    ensures var u := Run(s, more).value;
      && Inv(u) && Quiet(u) && u.cancelled == s.cancelled
      && u.accepted == s.accepted + Coming(s)
      && (u.cancelled ==> u.delivered == s.delivered)
    decreases SinkRank(s), |s.buf|, Effort(s)
  {
    hide Inv, Step, Effort;
    if Quiet(s) {
      more := [];
    } else {
      var e: Event;
      if !s.sink.Idle? && !s.lock.Drainer? {
        e := SinkStep(s);
      } else {
        var d := SomeDrainer(s);
        e := DrainStep(s, d);
      }
      var u := Step(s, e).value;
      var rest := Settle(u);
      assert ([e] + rest)[1..] == rest;
      more := [e] + rest;
    }
  }

  lemma SomeDrainer(s: Stream) returns (d: nat)
    requires Inv(s) && !Quiet(s) && (s.sink.Idle? || s.lock.Drainer?)
    ensures Alive(s, d)
  {
    if s.lock.Drainer? {
      d := s.lock.d;
    } else {
      assert s.buf != [];
      assert exists e :: Alive(s, e) by { var e :| e in s.drainers; assert Alive(s, e); }
      d :| Alive(s, d);
    }
  }

  /** Everything can arrive: from every reachable state some continuation brings the stream to
      rest, with the value of a sink call under way accepted unless the context was cancelled
      before it was checked. Until the context is cancelled the consumer then has every accepted
      value; afterwards it gets nothing more. */
  lemma EverythingCanArrive(events: seq<Event>)
    requires Run(EMPTY, events).Some?
    ensures var s := Run(EMPTY, events).value;
      exists more :: Run(s, more).Some? &&
        var u := Run(s, more).value;
        && Quiet(u) && u.cancelled == s.cancelled && u.accepted == s.accepted + Coming(s)
        && u.delivered == if s.cancelled then s.delivered else u.accepted
  {
    hide Run;
    EmptyInv();
    RunKeeps(EMPTY, events);
    var s := Run(EMPTY, events).value;
    var more := Settle(s);
    var u := Run(s, more).value;
    assert !FrontSent(u);
    assert u.accepted[..|u.accepted|] == u.accepted;
  }
}
