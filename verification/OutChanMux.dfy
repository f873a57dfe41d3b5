/** handleOutChans: the server goroutine that forwards every registered output channel
    over the one connection, with its two parallel slices. */
module OutChanMux {
  import opened Words
  import opened RpcMessages

  /** A source channel on the server. */
  type Chan = nat

  datatype Case = Control | Out(ch: Chan)

  /** A notification built for the remote side. */
  datatype Notice = ChVal(id: ChanId, value: Value) | ChClose(id: ChanId)

  /** `cases` has the registration channel in slot 0; slot i + 1 belongs to caseToID[i]. */
  datatype Mux = Mux(cases: seq<Case>, caseToID: seq<ChanId>)

  const START: Mux := Mux([Control], [])

  predicate Shaped(m: Mux) {
    |m.cases| == |m.caseToID| + 1 && m.cases[0] == Control
  }

  ghost predicate Distinct(ids: seq<ChanId>) {
    forall i, j :: 0 <= i < j < |ids| ==> ids[i] != ids[j]
  }

  /** The slices agree with the registrations: distinct ids, each slot's channel the one
      registered under the slot's id. */
  ghost predicate Aligned(m: Mux, regs: map<ChanId, Chan>) {
    && Shaped(m)
    && Distinct(m.caseToID)
    && forall i :: 0 <= i < |m.caseToID| ==>
         m.caseToID[i] in regs && m.cases[i + 1] == Out(regs[m.caseToID[i]])
  }

  function Register(m: Mux, id: ChanId, ch: Chan): Mux {
    Mux(m.cases + [Out(ch)], m.caseToID + [id])
  }

  /** Removal of slot `chosen` by moving the last slot into it. */
  function Remove(m: Mux, chosen: nat): Mux
    requires Shaped(m) && 1 <= chosen <= |m.caseToID|
  {
    var n := |m.caseToID|;
    Mux(m.cases[chosen := m.cases[n]][..n], m.caseToID[chosen - 1 := m.caseToID[n - 1]][..n - 1])
  }

  /** The id of the close notice, read from the slot after the swap. */
  function CloseId(m: Mux, chosen: nat): ChanId
    requires Shaped(m) && 1 <= chosen <= |m.caseToID|
  {
    m.caseToID[chosen - 1 := m.caseToID[|m.caseToID| - 1]][chosen - 1]
  }

  /** The goroutine's local slices, edited in place. */
  class OutChans {
    var cases: seq<Case>
    var caseToID: seq<ChanId>

    function State(): Mux
      reads this
    {
      Mux(cases, caseToID)
    }

    constructor ()
      ensures State() == START
    {
      cases := [Control];
      caseToID := [];
    }

    /** A fresh registration gets the last slot; every other slot keeps its place, and the
        slices stay aligned. */
    method OnRegistration(id: ChanId, ch: Chan, ghost regs: map<ChanId, Chan>)
      requires Aligned(State(), regs) && id !in regs
      modifies this
      ensures State() == Register(old(State()), id, ch)
      ensures Aligned(State(), regs[id := ch]) && cases[|caseToID|] == Out(ch)
      ensures forall k :: k in caseToID <==> k in old(caseToID) || k == id
    {
      RegisterAligned(State(), regs, id, ch);
      caseToID := caseToID + [id];
      cases := cases + [Out(ch)];
    }

    /** A channel closes: exactly its id is gone, every other id still stands for its own
        channel, and the notice bears the id that held the last slot. */
    method OnClosed(chosen: nat, ghost regs: map<ChanId, Chan>) returns (notice: Notice)
      requires Aligned(State(), regs) && 1 <= chosen <= |caseToID|
      modifies this
      ensures State() == Remove(old(State()), chosen)
      ensures Aligned(State(), regs)
      ensures forall k :: k in caseToID <==> k in old(caseToID) && k != old(caseToID)[chosen - 1]
      ensures notice == ChClose(old(caseToID)[|old(caseToID)| - 1])
      ensures notice.id == old(caseToID)[chosen - 1] <==> chosen == |old(caseToID)|
    {
      RemoveAligned(State(), regs, chosen);
      CloseNoticeExact(State(), regs, chosen);
      var n := |caseToID|;
      if n > 0 {
        cases := cases[chosen := cases[n]];
        caseToID := caseToID[chosen - 1 := caseToID[n - 1]];
      }
      var id := caseToID[chosen - 1];
      cases := cases[..n];
      caseToID := caseToID[..n - 1];
      notice := ChClose(id);
    }

    /** The value frame bears the id its channel was registered under. */
    method OnValue(chosen: nat, value: Value, ghost regs: map<ChanId, Chan>) returns (notice: Notice)
      requires Aligned(State(), regs) && 1 <= chosen <= |caseToID|
      ensures notice.ChVal? && notice.value == value && notice.id in regs
      ensures cases[chosen] == Out(regs[notice.id])
      ensures notice.id == caseToID[chosen - 1]
    {
      notice := ChVal(caseToID[chosen - 1], value);
    }

    /** The select loop of handleOutChans, from the goroutine's start: what each receive
        yields is given by `events`. For every source channel, the values forwarded under its
        ids are the values received from it, in order. */
    method HandleOutChans(events: seq<Event>) returns (notices: seq<Notice>, ghost t: Trace)
      requires State() == START
      requires Run(FRESH, events).Some?
      modifies this
      ensures t == Run(FRESH, events).value
      ensures State() == t.mux && notices == t.notices
      ensures Aligned(State(), t.regs)
      ensures forall ch :: Forwarded(notices, t.regs, ch) == ReceivedFrom(t.received, ch)
    {
      hide Forwarded, ReceivedFrom, Register, Remove;
      t := FRESH;
      notices := [];
      StartConsistent();
      var i := 0;
      while i < |events|
        invariant 0 <= i <= |events|
        invariant Run(t, events[i..]) == Run(FRESH, events)
        invariant Consistent(t) && State() == t.mux && notices == t.notices
      {
        var e := events[i];
        assert events[i..][1..] == events[i + 1..];
        ghost var next := Step(t, e).value;
        StepConsistent(t, e);
        match e {
          case Registration(id, ch) =>
            OnRegistration(id, ch, t.regs);
          case Receive(chosen, v) =>
            var n := OnValue(chosen, v, t.regs);
            notices := notices + [n];
          case Closed(chosen) =>
            CloseNoticeExact(t.mux, t.regs, chosen);
            var n := OnClosed(chosen, t.regs);
            notices := notices + [n];
        }
        t := next;
        i := i + 1;
      }
      assert events[i..] == [];
    }
  }

  lemma RegisterAligned(m: Mux, regs: map<ChanId, Chan>, id: ChanId, ch: Chan)
    requires Aligned(m, regs) && id !in regs
    ensures Aligned(Register(m, id, ch), regs[id := ch])
  {
  }

  /** Swap-removal keeps the slices aligned and drops exactly the closed channel's id. */
  lemma RemoveAligned(m: Mux, regs: map<ChanId, Chan>, chosen: nat)
    requires Aligned(m, regs) && 1 <= chosen <= |m.caseToID|
    ensures Aligned(Remove(m, chosen), regs)
    ensures forall id :: id in Remove(m, chosen).caseToID <==>
              id in m.caseToID && id != m.caseToID[chosen - 1]
  {
    var ids, r := m.caseToID, Remove(m, chosen).caseToID;
    var n := |ids|;
    forall i | 0 <= i < n - 1 ensures r[i] == if i == chosen - 1 then ids[n - 1] else ids[i] {}
    forall id ensures id in r <==> id in ids && id != ids[chosen - 1] {
      if id in ids && id != ids[chosen - 1] {
        var i :| 0 <= i < n && ids[i] == id;
        assert r[if i == n - 1 then chosen - 1 else i] == id;
      }
      if id in r {
        var i :| 0 <= i < n - 1 && r[i] == id;
        assert id == ids[if i == chosen - 1 then n - 1 else i];
      }
    }
  }

  /** The close notice names the channel that held the last slot. It names the closed
      channel exactly when that one held the last slot; otherwise it names a channel that
      stays registered while the closed one is gone. */
  lemma CloseNoticeExact(m: Mux, regs: map<ChanId, Chan>, chosen: nat)
    requires Aligned(m, regs) && 1 <= chosen <= |m.caseToID|
    ensures CloseId(m, chosen) == m.caseToID[|m.caseToID| - 1]
    ensures CloseId(m, chosen) == m.caseToID[chosen - 1] <==> chosen == |m.caseToID|
    ensures CloseId(m, chosen) in Remove(m, chosen).caseToID <==> chosen != |m.caseToID|
    ensures m.caseToID[chosen - 1] !in Remove(m, chosen).caseToID
  {
    RemoveAligned(m, regs, chosen);
  }

  /** Two channels registered as 1 and 2, the first closes: the notice says 2. */
  lemma CloseNoticeCanMislead()
    ensures var m := Register(Register(START, 1, 10), 2, 20);
      && m.cases[1] == Out(10) && m.caseToID[0] == 1
      && CloseId(m, 1) == 2 && Remove(m, 1) == Mux([Control, Out(20)], [2])
  {
    var m := Register(Register(START, 1, 10), 2, 20);
    assert m.cases == [Control, Out(10), Out(20)] && m.caseToID == [1, 2];
  }

  // -------------------------------------------------------------- whole runs

  datatype Event = Registration(id: ChanId, ch: Chan) | Receive(chosen: nat, value: Value) | Closed(chosen: nat)

  /** The slices, every registration made, every notice built and every value received
      with its source channel, oldest first. */
  datatype Trace = Trace(mux: Mux, regs: map<ChanId, Chan>, notices: seq<Notice>, received: seq<(Chan, Value)>)

  const FRESH: Trace := Trace(START, map[], [], [])

  function Step(t: Trace, e: Event): Option<Trace> {
    match e
    case Registration(id, ch) =>
      if id in t.regs then None
      else Some(t.(mux := Register(t.mux, id, ch), regs := t.regs[id := ch]))
    case Receive(chosen, v) =>
      if Shaped(t.mux) && 1 <= chosen <= |t.mux.caseToID| && t.mux.cases[chosen].Out?
      then Some(t.(notices := t.notices + [ChVal(t.mux.caseToID[chosen - 1], v)],
                   received := t.received + [(t.mux.cases[chosen].ch, v)]))
      else None
    case Closed(chosen) =>
      if Shaped(t.mux) && 1 <= chosen <= |t.mux.caseToID|
      then Some(t.(mux := Remove(t.mux, chosen), notices := t.notices + [ChClose(CloseId(t.mux, chosen))]))
      else None
  }

  function Run(t: Trace, events: seq<Event>): Option<Trace>
    decreases |events|
  {
    if events == [] then Some(t)
    else
      var next := Step(t, events[0]);
      if next.None? then None else Run(next.value, events[1..])
  }

  /** The values, oldest first, of the value notices whose id stands for `ch`. */
  function Forwarded(notices: seq<Notice>, regs: map<ChanId, Chan>, ch: Chan): seq<Value> {
    if notices == [] then []
    else
      var init, last := notices[..|notices| - 1], notices[|notices| - 1];
      Forwarded(init, regs, ch) +
      if last.ChVal? && last.id in regs && regs[last.id] == ch then [last.value] else []
  }

  function ReceivedFrom(received: seq<(Chan, Value)>, ch: Chan): seq<Value> {
    if received == [] then []
    else
      var init, last := received[..|received| - 1], received[|received| - 1];
      ReceivedFrom(init, ch) + if last.0 == ch then [last.1] else []
  }

  ghost predicate Consistent(t: Trace) {
    && Aligned(t.mux, t.regs)
    && (forall i :: 0 <= i < |t.notices| ==> t.notices[i].id in t.regs)
    && (forall ch :: Forwarded(t.notices, t.regs, ch) == ReceivedFrom(t.received, ch))
  }

  lemma {:induction false} ForwardedKeepsRegs(notices: seq<Notice>, regs: map<ChanId, Chan>,
                                              id: ChanId, ch: Chan, of: Chan)
    requires id !in regs && forall i :: 0 <= i < |notices| ==> notices[i].id in regs
    ensures Forwarded(notices, regs[id := ch], of) == Forwarded(notices, regs, of)
    decreases |notices|
  {
    if notices != [] {
      assert notices[|notices| - 1].id in regs;
      ForwardedKeepsRegs(notices[..|notices| - 1], regs, id, ch, of);
    }
  }

  lemma ForwardedSnoc(notices: seq<Notice>, regs: map<ChanId, Chan>, n: Notice, ch: Chan)
    ensures Forwarded(notices + [n], regs, ch) == Forwarded(notices, regs, ch) +
      (if n.ChVal? && n.id in regs && regs[n.id] == ch then [n.value] else [])
  {
    assert (notices + [n])[..|notices|] == notices;
  }

  lemma ReceivedSnoc(received: seq<(Chan, Value)>, r: (Chan, Value), ch: Chan)
    ensures ReceivedFrom(received + [r], ch) == ReceivedFrom(received, ch) + if r.0 == ch then [r.1] else []
  {
    assert (received + [r])[..|received|] == received;
  }

  lemma StepConsistent(t: Trace, e: Event)
    requires Consistent(t) && Step(t, e).Some?
    ensures Consistent(Step(t, e).value)
  {
    hide Forwarded, ReceivedFrom;
    var u := Step(t, e).value;
    match e {
      case Registration(id, ch) =>
        RegisterAligned(t.mux, t.regs, id, ch);
        forall of ensures Forwarded(u.notices, u.regs, of) == ReceivedFrom(u.received, of) {
          ForwardedKeepsRegs(t.notices, t.regs, id, ch, of);
        }
      case Receive(chosen, v) =>
        var n := ChVal(t.mux.caseToID[chosen - 1], v);
        forall of ensures Forwarded(u.notices, u.regs, of) == ReceivedFrom(u.received, of) {
          ForwardedSnoc(t.notices, t.regs, n, of);
          ReceivedSnoc(t.received, (t.mux.cases[chosen].ch, v), of);
        }
      case Closed(chosen) =>
        RemoveAligned(t.mux, t.regs, chosen);
        CloseNoticeExact(t.mux, t.regs, chosen);
        forall of ensures Forwarded(u.notices, u.regs, of) == ReceivedFrom(u.received, of) {
          ForwardedSnoc(t.notices, t.regs, ChClose(CloseId(t.mux, chosen)), of);
        }
    }
  }

  lemma {:induction false} RunConsistent(t: Trace, events: seq<Event>)
    requires Consistent(t) && Run(t, events).Some?
    ensures Consistent(Run(t, events).value)
    decreases |events|
  {
    hide Step, Consistent;
    if events != [] {
      StepConsistent(t, events[0]);
      RunConsistent(Step(t, events[0]).value, events[1..]);
    }
  }

  /** In every run of registrations, values and closings, in any order: the slices stay
      aligned, and for every source channel the values forwarded under its ids are the
      values received from it, in order. */
  lemma ForwardsInOrder(events: seq<Event>, ch: Chan)
    requires Run(FRESH, events).Some?
    ensures var t := Run(FRESH, events).value;
      Aligned(t.mux, t.regs) && Forwarded(t.notices, t.regs, ch) == ReceivedFrom(t.received, ch)
  {
    StartConsistent();
    RunConsistent(FRESH, events);
  }

  lemma StartConsistent()
    ensures Consistent(FRESH)
  {
  }
}
