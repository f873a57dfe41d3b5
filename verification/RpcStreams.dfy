/** Output channels in the running system: which channel an id stands for, what of a channel
    reaches the wire, and what the client makes of it. */
module RpcStreams {
  import opened Words
  import opened RpcMessages
  import opened RpcSystem
  import C = RpcClient
  import D = Dispatch
  import Mux = OutChanMux

  /** The notifications on the wire, oldest first. */
  function NoticesOf(down: seq<Wire>): seq<Mux.Notice> {
    if down == [] then []
    else
      var init, last := down[..|down| - 1], down[|down| - 1];
      NoticesOf(init) + if last.Notify? then [last.notice] else []
  }

  function PendingOf(s: System): seq<Mux.Notice> {
    if s.pending.Some? then [s.pending.value] else []
  }

  /** The task's id is registered for the very channel its method returned. */
  ghost predicate OnLine(s: System, t: Task) {
    && t.chan.Some? && Streams(t)
    && t.chan.value in s.mux.regs && s.mux.regs[t.chan.value] == t.draft.value.result.ch
  }

  ghost predicate ChannelOk(s: System, t: Task) {
    && (t.chan.Some? ==> t.chan.value >= 1)
    && (t.phase.Registered? || (Past(t.phase) && Streams(t)) ==> OnLine(s, t))
  }

  ghost predicate DistinctChannels(tasks: seq<Task>) {
    forall t, k :: 0 <= t < k < |tasks| && tasks[t].chan.Some? ==> tasks[t].chan != tasks[k].chan
  }

  /** Every task's channel id is right and its own, and every notice built is on the wire, in order, but
      for the one still to be written. */
  ghost predicate ChannelsOk(s: System) {
    && (forall t :: 0 <= t < |s.tasks| ==> ChannelOk(s, s.tasks[t]))
    && DistinctChannels(s.tasks)
    && s.mux.notices == NoticesOf(s.down) + PendingOf(s)
  }

  lemma NoticesSnoc(down: seq<Wire>, w: Wire)
    ensures NoticesOf(down + [w]) == NoticesOf(down) + if w.Notify? then [w.notice] else []
  {
    assert (down + [w])[..|down|] == down;
  }

  /** Registrations are never withdrawn or changed. */
  lemma RegsGrow(m: Mux.Trace, e: Mux.Event, id: ChanId)
    requires Mux.Step(m, e).Some? && id in m.regs
    ensures id in Mux.Step(m, e).value.regs && Mux.Step(m, e).value.regs[id] == m.regs[id]
  {
  }

  lemma DistinctSwap(tasks: seq<Task>, t: nat, task: Task)
    requires t < |tasks| && DistinctChannels(tasks)
    requires task.chan == tasks[t].chan ||
             forall k :: 0 <= k < |tasks| && tasks[k].chan.Some? ==> tasks[k].chan != task.chan
    ensures DistinctChannels(tasks[t := task])
  {
  }

  /** A step of one task that writes no notification and keeps every registration. */
  lemma OneChannelChanges(s: System, u: System, t: nat)
    requires ChannelsOk(s) && t < |s.tasks| == |u.tasks|
    requires u.tasks == s.tasks[t := u.tasks[t]] && ChannelOk(u, u.tasks[t])
    requires u.tasks[t].chan == s.tasks[t].chan ||
             forall k :: 0 <= k < |s.tasks| && s.tasks[k].chan.Some? ==> s.tasks[k].chan != u.tasks[t].chan
    requires forall id :: id in s.mux.regs ==> id in u.mux.regs && u.mux.regs[id] == s.mux.regs[id]
    requires u.mux.notices == s.mux.notices && u.pending == s.pending && NoticesOf(u.down) == NoticesOf(s.down)
    ensures ChannelsOk(u)
  {
    hide NoticesOf;
    DistinctSwap(s.tasks, t, u.tasks[t]);
    forall k | 0 <= k < |u.tasks| ensures ChannelOk(u, u.tasks[k]) {
      if k != t { assert u.tasks[k] == s.tasks[k] && ChannelOk(s, s.tasks[k]); }
    }
  }

  /** The id drawn is greater than any drawn before. */
  lemma DrawChannels(svc: D.Service, s: System, t: nat)
    requires SysInv(s) && ChannelsOk(s) && SysStep(svc, s, Draw(t)).Some?
    ensures ChannelsOk(SysStep(svc, s, Draw(t)).value)
  {
    hide C.Inv, AnswersOk, Settled, StreamsOk, NoticesOf;
    OneChannelChanges(s, SysStep(svc, s, Draw(t)).value, t);
  }

  lemma TaskEventChannels(svc: D.Service, s: System, e: SysEvent)
    requires SysInv(s) && ChannelsOk(s) && SysStep(svc, s, e).Some?
    requires !e.OfClient? && !e.ClientReads? && !e.ServerReads? && !e.MuxValue? && !e.MuxClosed? && !e.MuxWrite?
    requires !e.Draw?
    ensures ChannelsOk(SysStep(svc, s, e).value)
  {
    hide C.Inv, AnswersOk, Settled, StreamsOk, NoticesOf, D.Begin, D.Conclude, RespFrame, DistinctChannels;
    var u, t := SysStep(svc, s, e).value, e.task;
    assert ChannelOk(s, s.tasks[t]);
    if e.Accept? {
      forall id | id in s.mux.regs ensures id in u.mux.regs && u.mux.regs[id] == s.mux.regs[id] {
        RegsGrow(s.mux, Registers(s.tasks[t]), id);
      }
    }
    if e.Flush? {
      var w := u.down[|s.down|];
      assert !w.Notify? by { FlushWritesNoNotice(svc, s, e); }
      NoticesSnoc(s.down, w);
    }
    OneChannelChanges(s, u, t);
  }

  lemma FlushWritesNoNotice(svc: D.Service, s: System, e: SysEvent)
    requires e.Flush? && SysStep(svc, s, e).Some?
    ensures var u := SysStep(svc, s, e).value;
      |u.down| == |s.down| + 1 && !u.down[|s.down|].Notify? && u.down == s.down + [u.down[|s.down|]]
  {
  }

  lemma MuxEventChannels(svc: D.Service, s: System, e: SysEvent)
    requires SysInv(s) && ChannelsOk(s) && SysStep(svc, s, e).Some?
    requires e.MuxValue? || e.MuxClosed? || e.MuxWrite?
    ensures ChannelsOk(SysStep(svc, s, e).value)
  {
    hide C.Inv, AnswersOk, Settled, TasksOk, NoticesOf;
    var u := SysStep(svc, s, e).value;
    if e.MuxWrite? { NoticesSnoc(s.down, Notify(s.pending.value)); }
    forall k | 0 <= k < |u.tasks| ensures ChannelOk(u, u.tasks[k]) {
      assert u.tasks[k] == s.tasks[k] && ChannelOk(s, s.tasks[k]);
    }
  }

  lemma OtherEventChannels(svc: D.Service, s: System, e: SysEvent)
    requires ChannelsOk(s) && SysStep(svc, s, e).Some?
    requires e.OfClient? || e.ClientReads? || e.ServerReads?
    ensures ChannelsOk(SysStep(svc, s, e).value)
  {
    hide C.Step, NoticesOf;
    var u := SysStep(svc, s, e).value;
    forall k | 0 <= k < |u.tasks| ensures ChannelOk(u, u.tasks[k]) {
      if k < |s.tasks| { assert u.tasks[k] == s.tasks[k] && ChannelOk(s, s.tasks[k]); }
    }
  }

  lemma StepChannels(svc: D.Service, s: System, e: SysEvent)
    requires SysInv(s) && ChannelsOk(s) && SysStep(svc, s, e).Some?
    ensures ChannelsOk(SysStep(svc, s, e).value)
  {
    hide SysInv, ChannelsOk, SysStep;
    if e.MuxValue? || e.MuxClosed? || e.MuxWrite? {
      MuxEventChannels(svc, s, e);
    } else if e.OfClient? || e.ClientReads? || e.ServerReads? {
      OtherEventChannels(svc, s, e);
    } else if e.Draw? {
      DrawChannels(svc, s, e.task);
    } else {
      TaskEventChannels(svc, s, e);
    }
  }

  lemma {:induction false} RunChannels(svc: D.Service, s: System, events: seq<SysEvent>)
    requires SysInv(s) && ChannelsOk(s) && SysRun(svc, s, events).Some?
    ensures ChannelsOk(SysRun(svc, s, events).value)
    decreases |events|
  {
    hide SysInv, SysStep, ChannelsOk;
    if events != [] {
      SysStepKeeps(svc, s, events[0]);
      StepChannels(svc, s, events[0]);
      RunChannels(svc, SysStep(svc, s, events[0]).value, events[1..]);
    }
  }

  lemma ChannelsReached(svc: D.Service, events: seq<SysEvent>)
    requires SysRun(svc, START_STATE, events).Some?
    ensures var s := SysRun(svc, START_STATE, events).value; SysInv(s) && ChannelsOk(s)
  {
    hide SysInv, SysRun;
    StartInv();
    SysRunKeeps(svc, START_STATE, events);
    assert ChannelsOk(START_STATE);
    RunChannels(svc, START_STATE, events);
  }

  // ------------------------------------------------------- main results

  /** Registered for its own channel: in every interleaving, the id in a streaming task's
      response is positive and stands for the channel the task's method returned. */
  lemma IdStandsForOwnChannel(svc: D.Service, events: seq<SysEvent>, t: nat)
    requires SysRun(svc, START_STATE, events).Some?
    requires var s := SysRun(svc, START_STATE, events).value;
      t < |s.tasks| && Past(s.tasks[t].phase) && Streams(s.tasks[t])
    ensures var s := SysRun(svc, START_STATE, events).value;
      OnLine(s, s.tasks[t]) && s.tasks[t].chan.value >= 1
  {
    hide SysRun, SysInv;
    ChannelsReached(svc, events);
  }

  /** Per-channel order on the wire: in every interleaving and for every source channel, the
      values in the notifications on the wire whose id stands for that channel, followed by
      the one waiting for the write lock, are exactly the values received from the channel,
      in order. */
  lemma WireKeepsChannelOrder(svc: D.Service, events: seq<SysEvent>, ch: Mux.Chan)
    requires SysRun(svc, START_STATE, events).Some?
    ensures var s := SysRun(svc, START_STATE, events).value;
      Mux.Forwarded(NoticesOf(s.down), s.mux.regs, ch) + Mux.Forwarded(PendingOf(s), s.mux.regs, ch) ==
      Mux.ReceivedFrom(s.mux.received, ch)
  {
    hide SysRun, C.Inv, TasksOk, AnswersOk, Settled, NoticesOf, Mux.Forwarded, Mux.ReceivedFrom;
    ChannelsReached(svc, events);
    var s := SysRun(svc, START_STATE, events).value;
    var wire := NoticesOf(s.down);
    assert s.mux.notices == wire + PendingOf(s) && Mux.Consistent(s.mux);
    if s.pending.Some? {
      Mux.ForwardedSnoc(wire, s.mux.regs, s.pending.value, ch);
      Mux.ForwardedSnoc([], s.mux.regs, s.pending.value, ch);
      assert [] + [s.pending.value] == [s.pending.value];
    } else {
      assert wire + [] == wire;
    }
    assert Mux.Forwarded([], s.mux.regs, ch) == [] by { EmptyForwarded(s.mux.regs, ch); }
  }

  lemma EmptyForwarded(regs: map<ChanId, Mux.Chan>, ch: Mux.Chan)
    ensures Mux.Forwarded([], regs, ch) == []
  {
  }

  /** Notifications go unheard: in every interleaving, a notification on the wire is about a
      channel with a positive id, but names no channel, so that the client looks up id 0 for a
      value and none for a close. Reading it while the loop serves changes nothing. */
  lemma NotificationsGoUnheard(svc: D.Service, events: seq<SysEvent>, j: nat)
    requires SysRun(svc, START_STATE, events).Some?
    requires var s := SysRun(svc, START_STATE, events).value; j < |s.down| && s.down[j].Notify?
    ensures var s := SysRun(svc, START_STATE, events).value;
      && s.down[j].notice.id >= 1
      && C.NamedChannel(ToFrame(s.down[j])).None?
      && C.HandleFrame(s.client.conn, ToFrame(s.down[j])) == Some(s.client.conn)
      && (s.read == j && s.client.loop.Serving? ==>
            SysStep(svc, s, ClientReads) == Some(s.(read := s.read + 1)))
  {
    hide SysRun, C.Inv, TasksOk, AnswersOk, Settled, RespFrame, NoticesOf, Mux.Consistent;
    ChannelsReached(svc, events);
    var s := SysRun(svc, START_STATE, events).value;
    var id := s.down[j].notice.id;
    assert Announced(s, j, id);
    var i :| 0 <= i < j && AnnouncedAt(s, i, id);
    var t :| 0 <= t < |s.tasks| && Past(s.tasks[t].phase) && s.tasks[t].chan == Some(id) &&
             RespFrame(s.tasks[t]) == s.down[i];
    assert ChannelOk(s, s.tasks[t]);
    UnheardStep(s, j);
  }

  lemma UnheardStep(s: System, j: nat)
    requires j < |s.down| && s.down[j].Notify?
    ensures ToFrame(s.down[j]).params != [] && C.NamedChannel(ToFrame(s.down[j])).None?
    ensures C.HandleFrame(s.client.conn, ToFrame(s.down[j])) == Some(s.client.conn)
    ensures s.read == j && s.client.loop.Serving? ==> ClientRead(s) == Some(s.(read := s.read + 1))
  {
    assert WS_CANCEL != CH_VALUE && WS_CANCEL != CH_CLOSE;
    assert CH_VALUE[8] != CH_CLOSE[8];
  }
}
