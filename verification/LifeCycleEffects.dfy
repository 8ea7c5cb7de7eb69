/**
 What each step of the life cycle does, as far as it can be seen: the state, the
 interest and the history of the connection it is about, and the queue of its loop.
 */
module LifeCycleEffects {
  import opened PollerSpec
  import opened ConnectionState
  import opened LifeCycle
  import opened LifeCycleSafety
  import opened LifeCycleRuns
  import opened LifeCycleProgress

  datatype Seen = Seen(state: State, interest: Interest, reading: bool, history: seq<Event>, queue: seq<Task>)

  function See(s: Sys, c: nat): Seen
    requires Shaped(s) && c < |s.conns|
  {
    var k := s.conns[c];
    Seen(k.state, InterestOf(k.chan.events), k.reading, k.history, s.loops[k.loop].pending)
  }

  // ------------------------------------------------------------------- primitives

  lemma SeeLog(s: Sys, c: nat, e: Event)
    requires Shaped(s) && c < |s.conns|
    ensures Shaped(Log(s, c, e)) && See(Log(s, c, e), c) == See(s, c).(history := s.conns[c].history + [e])
  {
  }

  lemma SeePush(s: Sys, c: nat, t: Task)
    requires Shaped(s) && c < |s.conns|
    ensures var r := Push(s, s.conns[c].loop, t);
      Shaped(r) && See(r, c) == See(s, c).(queue := s.loops[s.conns[c].loop].pending + [t])
  {
  }

  lemma SeeSetEvents(s: Sys, c: nat, events: Mask, wanted: Interest)
    requires Shaped(s) && c < |s.conns| && InterestOf(events) == wanted
    ensures See(SetEvents(s, c, events), c) == See(s, c).(interest := wanted)
  {
  }

  lemma SeeReading(s: Sys, c: nat, events: Mask, wanted: Interest, on: bool)
    requires Shaped(s) && c < |s.conns| && InterestOf(events) == wanted
    ensures var r := SetReading(SetEvents(s, c, events), c, on);
      Shaped(r) && c < |r.conns| && See(r, c) == See(s, c).(interest := wanted, reading := on)
  {
    SeeSetEvents(s, c, events, wanted);
  }

  // --------------------------------------------------------------------- sending

  /** What a list of sends queues, from a connection that has write interest or not: all
      written at once, the write-complete callback; the mark crossed, the high-water callback. */
  function Queued(sends: seq<Sent>, writing: bool, c: nat): seq<Task>
    decreases |sends|
  {
    if sends == [] then []
    else match sends[0]
      case Whole => (if writing then [] else [WriteComplete(c)]) + Queued(sends[1..], writing, c)
      case Spilled(high) => (if high then [HighWater(c)] else []) + Queued(sends[1..], true, c)
      case Refused => []
  }

  predicate Spills(sends: seq<Sent>) { exists sent <- sends :: sent.Spilled? }

  lemma SeeWatchWrites(s: Sys, c: nat)
    requires Shaped(s) && c < |s.conns|
    ensures var events := s.conns[c].chan.events;
      var r := if IsWriting(events) then s else SetEvents(s, c, events | WRITE_EVENT);
      Shaped(r) && c < |r.conns| && See(r, c) == See(s, c).(interest := InterestOf(events).(write := true))
  {
    var events := s.conns[c].chan.events;
    InterestUpdates(events);
    SeeSetEvents(s, c, events | WRITE_EVENT, InterestOf(events).(write := true));
  }

  lemma SeeSend(s: Sys, c: nat, sent: Sent)
    requires Shaped(s) && c < |s.conns| && !sent.Refused?
    ensures var v := See(s, c);
      See(SendInLoop(s, c, sent), c) ==
        if sent.Whole? then if v.interest.write then v else v.(queue := v.queue + [WriteComplete(c)])
        else v.(interest := v.interest.(write := true), queue := if sent.high then v.queue + [HighWater(c)] else v.queue)
  {
    var k := s.conns[c];
    if sent.Whole? {
      SeePush(s, c, WriteComplete(c));
    } else {
      SeePush(s, c, HighWater(c));
      SeeWatchWrites(if sent.high then Push(s, k.loop, HighWater(c)) else s, c);
    }
  }

  lemma Joined<T>(a: seq<T>, b: seq<T>, d: seq<T>)
    ensures (a + b) + d == a + (b + d)
  {
  }

  lemma {:induction false} SeeSends(s: Sys, c: nat, sends: seq<Sent>)
    requires Shaped(s) && c < |s.conns| && NoneRefused(sends)
    ensures var v := See(s, c);
      See(Sends(s, c, sends), c) ==
        v.(interest := v.interest.(write := v.interest.write || Spills(sends)), queue := v.queue + Queued(sends, v.interest.write, c))
    decreases |sends|
  {
    var v := See(s, c);
    if sends == [] {
      assert v.queue + [] == v.queue;
    } else {
      var sent := sends[0];
      assert sent in sends && forall x <- sends[1..] :: x in sends;
      assert Spills(sends) <==> sent.Spilled? || Spills(sends[1..]) by { assert sends == [sent] + sends[1..]; }
      var m := SendInLoop(s, c, sent);
      SeeSend(s, c, sent);
      SeeSends(m, c, sends[1..]);
      var first := if sent.Whole? then if v.interest.write then [] else [WriteComplete(c)] else if sent.high then [HighWater(c)] else [];
      assert See(m, c).queue == v.queue + first;
      Joined(v.queue, first, Queued(sends[1..], v.interest.write || sent.Spilled?, c));
    }
  }

  // --------------------------------------------------------------- handling an event

  predicate Reads(ev: Revents) { ev.input || ev.pri || ev.rdhup }

  /** The event closes the connection: hung up with nothing to read, or end-of-file is read. */
  predicate Closes(ev: Revents, n: int) { (ev.hup && !ev.input) || (Reads(ev) && n == 0) }

  /** The sends of the message callback that the event brings, if it brings one. */
  function SendsOf(v: Seen, ev: Revents, n: int, reply: Reply): seq<Sent> {
    if Reads(ev) && n > 0 && v.state == Connected then reply.sends else []
  }

  /** An event that does not close the connection. */
  function AfterMessage(v: Seen, c: nat, ev: Revents, n: int, reply: Reply): Seen {
    var sends := SendsOf(v, ev, n, reply);
    if Reads(ev) && n > 0 then
      v.(state := if reply.shutdown && v.state == Connected then Disconnecting else v.state,
         interest := v.interest.(write := v.interest.write || Spills(sends)),
         history := v.history + [Handled], queue := v.queue + Queued(sends, v.interest.write, c))
    else v
  }

  lemma SeeMessage(s: Sys, c: nat, ev: Revents, n: int, reply: Reply)
    requires Shaped(s) && c < |s.conns| && n != 0 && NoneRefused(SendsOf(See(s, c), ev, n, reply))
    ensures var r := if Reads(ev) then HandleRead(s, c, n, reply) else s;
      Shaped(r) && c < |r.conns| && See(r, c) == AfterMessage(See(s, c), c, ev, n, reply)
  {
    if Reads(ev) && n > 0 {
      var v := See(s, c);
      var sends := SendsOf(v, ev, n, reply);
      SeeSends(s, c, sends);
      var m := if v.state == Connected then Sends(s, c, reply.sends) else s;
      assert m == Sends(s, c, sends);
      SeeLog(if reply.shutdown then Shutdown(m, c) else m, c, Handled);
    }
  }

  lemma SeeWrite(s: Sys, c: nat, drained: bool)
    requires Shaped(s) && c < |s.conns|
    ensures var v := See(s, c);
      See(HandleWrite(s, c, drained), c) ==
        if !v.interest.write then v
        else v.(interest := v.interest.(write := !drained), history := v.history + [Handled],
                queue := if drained then v.queue + [WriteComplete(c)] else v.queue)
  {
    var events := s.conns[c].chan.events;
    InterestUpdates(events);
    SeeSetEvents(s, c, events & !WRITE_EVENT, InterestOf(events).(write := false));
    var m := SetEvents(s, c, events & !WRITE_EVENT);
    SeePush(m, c, WriteComplete(c));
    SeeLog(Push(m, m.conns[c].loop, WriteComplete(c)), c, Handled);
    SeeLog(s, c, Handled);
  }

  lemma SeeTake(s: Sys, l: nat, c: nat)
    requires Shaped(s) && l < |s.loops| && c < |s.conns|
    ensures var m := Take(s, l, c); Shaped(m) && See(m, c) == See(s, c) && m.conns == s.conns && m.registry == s.registry
  {
  }

  /** An event that leaves the connection open: input runs the message callback, with all its
      sends and its shutdown; then writability, if there is write interest by then, is handled
      in its turn, and once the buffer is drained turns that interest off and queues the
      write-complete callback.  A failing read alone changes nothing. */
  lemma EventHandled(s: Sys, step: Step)
    requires Inv(s) && step.Handle? && Enabled(s, step) && Orderly(s, step) && !Closes(step.ev, step.n)
    ensures var r := Next(s, step); var v := See(s, step.c); var message := Reads(step.ev) && step.n > 0;
      var sends := if message && v.state == Connected then step.reply.sends else [];
      var writing := v.interest.write || Spills(sends); var writes := step.ev.output && writing;
      && Shaped(r) && step.c < |r.conns|
      && var w := See(r, step.c);
      && w.state == (if message && step.reply.shutdown && v.state == Connected then Disconnecting else v.state)
      && w.interest == v.interest.(write := writing && !(writes && step.drained)) && w.reading == v.reading
      && w.history == v.history + (if message then [Handled] else []) + (if writes then [Handled] else [])
      && w.queue == v.queue + Queued(sends, v.interest.write, step.c) + (if writes && step.drained then [WriteComplete(step.c)] else [])
  {
    var Handle(l, c, ev, n, reply, drained) := step;
    var m := Take(s, l, c);
    SeeTake(s, l, c);
    var v := See(s, c);
    assert n != 0 || !Reads(ev);
    var m2 := if Reads(ev) then HandleRead(m, c, n, reply) else m;
    if Reads(ev) {
      SeeMessage(m, c, ev, n, reply);
    }
    SeeWrite(m2, c, drained);
    assert Next(s, step) == if ev.output then HandleWrite(m2, c, drained) else m2;
  }

  lemma SeeDown(s: Sys, c: nat)
    requires Shaped(s) && c < |s.conns| && s.conns[c].state in {Connected, Disconnecting}
    ensures var r := HandleClose(s, c); var v := See(s, c); var l := s.conns[c].loop;
      && r.conns[c].state == Disconnected && InterestOf(r.conns[c].chan.events) == Interest(false, false)
      && r.conns[c].history == v.history + [Down]
      && if l == BASE then r.registry == s.registry - {c} && r.loops[l].pending == v.queue + [Destroy(c)]
         else r.registry == s.registry && r.loops[l].pending == v.queue
              && r.loops[BASE].pending == s.loops[BASE].pending + [RemoveInLoop(c)]
  {
    InterestUpdates(NONE_EVENT);
  }

  /** An event that closes the connection: it is down, watched for nothing, and on its way out
      of the registry, at once when its loop is the accept loop, else through that loop's queue. */
  lemma EventCloses(s: Sys, step: Step)
    requires Inv(s) && step.Handle? && Enabled(s, step) && Orderly(s, step) && Closes(step.ev, step.n)
    ensures var r := Next(s, step); var c := step.c; var v := See(s, c); var l := s.conns[c].loop;
      && r.conns[c].state == Disconnected && InterestOf(r.conns[c].chan.events) == Interest(false, false)
      && r.conns[c].history == v.history + [Down]
      && if l == BASE then r.registry == s.registry - {c} && r.loops[l].pending == v.queue + [Destroy(c)]
         else r.registry == s.registry && r.loops[l].pending == v.queue
              && r.loops[BASE].pending == s.loops[BASE].pending + [RemoveInLoop(c)]
  {
    var Handle(l, c, ev, n, reply, drained) := step;
    var m := Take(s, l, c);
    TakeEffect(s, l, c);
    SeeTake(s, l, c);
    SeeDown(m, c);
    InterestUpdates(NONE_EVENT);
    assert Next(s, step) == HandleClose(m, c);
  }

  // ------------------------------------------------------------- the other steps

  /** Polling hands the loop exactly the connections whose descriptors the kernel reported. */
  lemma PollHandsOver(s: Sys, l: nat, ready: set<int>)
    requires Inv(s) && Enabled(s, PollReturns(l, ready))
    ensures var r := Next(s, PollReturns(l, ready));
      && r.loops[l].phase == Handling && r.conns == s.conns
      && forall c: nat :: c in r.loops[l].active <==>
           c < |s.conns| && s.conns[c].loop == l && s.conns[c].chan.index == Added && s.conns[c].chan.fd in ready
  {
    var r := Next(s, PollReturns(l, ready));
    ReadyKnown(s, l, ready);
    assert Coherent(s.loops[l].poller, Chans(s, l));
    forall c: nat
      ensures c in r.loops[l].active <==>
           c < |s.conns| && s.conns[c].loop == l && s.conns[c].chan.index == Added && s.conns[c].chan.fd in ready
    {
      if c in r.loops[l].active {
        var fd :| fd in ready && fd in s.loops[l].poller.channels && s.loops[l].poller.channels[fd] == c;
        assert Known(s, l, fd);
        ChannelOwner(s, l, fd);
      }
      assert c < |s.conns| && s.conns[c].loop == l ==> c in Chans(s, l) && Chans(s, l)[c] == s.conns[c].chan;
    }
  }

  /** A new connection lives in the loop it was given, under the descriptor accepted: it is
      established there at once, or has that queued. */
  lemma AcceptMakes(s: Sys, fd: int, l: nat)
    requires Inv(s) && Enabled(s, Accept(fd, l))
    ensures var r := Next(s, Accept(fd, l)); var c := |s.conns|;
      && Shaped(r) && |r.conns| == c + 1 && r.conns[..c] == s.conns && r.registry == s.registry + {c}
      && r.conns[c].loop == l && r.conns[c].chan.fd == fd
      && See(r, c) == if l == BASE then Seen(Connected, Interest(true, false), false, [Established], s.loops[l].pending)
                      else Seen(Connecting, Interest(false, false), false, [], s.loops[l].pending + [Establish(c)])
  {
    var c := |s.conns|;
    var m := Newcomer(s, fd, l);
    InterestUpdates(NONE_EVENT);
    assert m.conns[..c] == s.conns;
    if l == BASE {
      SeeEstablish(m, c);
    } else {
      SeePush(m, c, Establish(c));
    }
  }

  lemma SeeEstablish(s: Sys, c: nat)
    requires Shaped(s) && c < |s.conns|
    ensures var r := ConnectEstablished(s, c); var v := See(s, c);
      && See(r, c) == Seen(Connected, v.interest.(read := true), v.reading, v.history + [Established], v.queue)
      && r.registry == s.registry && r.conns[c].chan.fd == s.conns[c].chan.fd
      && (forall d :: 0 <= d < |s.conns| && d != c ==> r.conns[d] == s.conns[d])
  {
    var s1 := SetState(Assert(s, s.conns[c].state == Connecting), c, Connected);
    var events := s.conns[c].chan.events;
    InterestUpdates(events);
    SeeSetEvents(s1, c, events | READ_EVENT, InterestOf(events).(read := true));
    SeeLog(SetEvents(s1, c, events | READ_EVENT), c, Established);
  }

  /** The wheel's timeout begins to shut a connected connection down, and does nothing to any other. */
  lemma TimeoutShutsDown(s: Sys, l: nat, c: nat)
    requires Enabled(s, IdleTimeout(l, c))
    ensures Next(s, IdleTimeout(l, c)) ==
      if s.conns[c].state == Connected then s.(conns := s.conns[c := s.conns[c].(state := Disconnecting)]) else s
  {
  }

  /** startRead leaves a connection with read interest, whatever it had. */
  lemma StartReadWatches(s: Sys, l: nat, c: nat)
    requires Enabled(s, UserStartRead(l, c))
    ensures var r := Next(s, UserStartRead(l, c));
      Shaped(r) && See(r, c) == See(s, c).(interest := See(s, c).interest.(read := true), reading := true)
  {
    SeeStartRead(s, c);
  }

  lemma SeeStartRead(s: Sys, c: nat)
    requires Shaped(s) && c < |s.conns|
    ensures See(StartRead(s, c), c) == See(s, c).(interest := See(s, c).interest.(read := true), reading := true)
  {
    var events := s.conns[c].chan.events;
    InterestUpdates(events);
    SeeReading(s, c, events | READ_EVENT, InterestOf(events).(read := true), true);
  }

  lemma SeeStopRead(s: Sys, c: nat)
    requires Shaped(s) && c < |s.conns|
    ensures See(StopRead(s, c), c) == See(s, c).(interest := See(s, c).interest.(read := false), reading := false)
  {
    var events := s.conns[c].chan.events;
    InterestUpdates(events);
    SeeReading(s, c, events & !READ_EVENT, InterestOf(events).(read := false), false);
  }

  /** The turn of a loop: the batch is all that was queued, and behind its last functor the
      loop polls again. */
  lemma TurnMoves(s: Sys, l: nat)
    requires l < |s.loops|
    ensures Enabled(s, Swap(l)) ==>
      Next(s, Swap(l)) == s.(loops := s.loops[l := s.loops[l].(phase := Running, batch := s.loops[l].pending, pending := [])])
    ensures Enabled(s, EndBatch(l)) ==> Next(s, EndBatch(l)) == s.(loops := s.loops[l := s.loops[l].(phase := Polling)])
  {
  }

  /** connectDestroyed: a connection still connected goes down first; either way it leaves its
      poller, with its destruction as the last thing that happens to it. */
  lemma DestroyEnds(s: Sys, c: nat)
    requires Shaped(s) && c < |s.conns|
    ensures var r := ConnectDestroyed(s, c); var v := See(s, c); var up := v.state == Connected;
      && r.conns[c].state == (if up then Disconnected else v.state) && r.conns[c].chan.index == New
      && r.conns[c].history == v.history + (if up then [Down] else []) + [Destroyed]
      && (up ==> InterestOf(r.conns[c].chan.events) == Interest(false, false))
      && s.conns[c].chan.fd !in r.loops[s.conns[c].loop].poller.channels
      && r.registry == s.registry && r.loops[s.conns[c].loop].pending == v.queue
  {
    InterestUpdates(NONE_EVENT);
  }

  /** What a functor makes of the connection it names. */
  ghost predicate TaskDone(v: Seen, r: Sys, t: Task) {
    && Shaped(r) && t.c < |r.conns|
    && var w := See(r, t.c);
      match t
      case Establish(_) => w == Seen(Connected, v.interest.(read := true), v.reading, v.history + [Established], v.queue)
      case RemoveInLoop(c) => w == v.(queue := v.queue + [Destroy(c)]) && c !in r.registry
      case Destroy(c) => w == v.(history := v.history + [Destroyed]) && r.conns[c].chan.index == New
      case WriteComplete(_) => w == v.(interest := v.interest.(read := true), reading := true, history := v.history + [Handled])
      case HighWater(_) => w == v.(interest := v.interest.(read := false), reading := false, history := v.history + [Handled])
  }

  lemma TaskDoes(m: Sys, t: Task)
    requires Shaped(m) && t.c < |m.conns| && (t.Destroy? ==> m.conns[t.c].state != Connected)
    ensures TaskDone(See(m, t.c), RunTask(m, t), t)
  {
    match t {
      case Establish(c) => SeeEstablish(m, c);
      case RemoveInLoop(c) => SeePush(Assert(m, c in m.registry).(registry := m.registry - {c}), c, Destroy(c));
      case Destroy(c) => SeeDestroy(m, c);
      case WriteComplete(c) =>
        SeeStartRead(m, c);
        SeeLog(StartRead(m, c), c, Handled);
      case HighWater(c) =>
        SeeStopRead(m, c);
        SeeLog(StopRead(m, c), c, Handled);
    }
  }

  lemma SeeDestroy(s: Sys, c: nat)
    requires Shaped(s) && c < |s.conns| && s.conns[c].state != Connected
    ensures var r := ConnectDestroyed(s, c);
      See(r, c) == See(s, c).(history := See(s, c).history + [Destroyed]) && r.conns[c].chan.index == New
  {
    SeeLog(Unregister(s, c), c, Destroyed);
  }

  /** Running the next functor of a loop: it leaves the batch, and does what it is for. */
  lemma TaskRuns(s: Sys, l: nat)
    requires Inv(s) && Enabled(s, RunNext(l))
    ensures var t := s.loops[l].batch[0];
      TaskDone(See(s, t.c), Next(s, RunNext(l)), t)
  {
    var t := s.loops[l].batch[0];
    PopEffect(s, l);
    assert Good(ViewOf(s, t.c));
    assert See(Pop(s, l), t.c) == See(s, t.c);
    TaskDoes(Pop(s, l), t);
  }

  /** A loop is never stuck: it can poll for whatever its kernel set holds, handle each ready
      channel with whatever happened there, go on to its queue when none is left, run each functor
      of its batch, and poll again. */
  lemma LoopGoesOn(s: Sys, l: nat)
    requires Inv(s) && l < |s.loops|
    ensures match s.loops[l].phase
      case Polling => forall ready :: ready <= s.loops[l].poller.kernel.Keys ==> Enabled(s, PollReturns(l, ready))
      case Handling =>
        && (forall c: nat, ev, n, reply, drained :: c in s.loops[l].active ==> Enabled(s, Handle(l, c, ev, n, reply, drained)))
        && (s.loops[l].active == {} ==> Enabled(s, Swap(l)))
      case Running => if s.loops[l].batch == [] then Enabled(s, EndBatch(l)) else Enabled(s, RunNext(l))
  {
    assert QueuePlaced(s.conns, s.loops[l].batch, l);
    if s.loops[l].batch != [] {
      assert s.loops[l].batch[0] in s.loops[l].batch;
    }
  }

  /** In between, code in the loop can use any connection of it, and the accept loop can take a
      connection whose descriptor no connection still to be destroyed has. */
  lemma LoopCanDo(s: Sys, l: nat, c: nat, fd: int)
    requires Inv(s) && l < |s.loops| && s.loops[l].phase == Handling
    ensures c < |s.conns| && s.conns[c].loop == l ==> Enabled(s, IdleTimeout(l, c)) && Enabled(s, UserStartRead(l, c))
    ensures l == BASE && (forall d: nat :: d < |s.conns| && Stages(s, d) != Gone ==> s.conns[d].chan.fd != fd) ==>
      forall k: nat :: k < |s.loops| ==> Enabled(s, Accept(fd, k))
  {
    forall d: nat | d < |s.conns| && Owned(s, d)
      ensures Stages(s, d) != Gone
    {
      OwnedNotGone(s, d);
    }
  }

  lemma OwnedNotGone(s: Sys, c: nat)
    requires Inv(s) && c < |s.conns| && Owned(s, c)
    ensures Stages(s, c) != Gone
  {
    assert Good(ViewOf(s, c));
    HistoryMembers(s.conns[c].history, Stages(s, c));
    OwnedExactly(s, c);
  }

  // ----------------------------------------------------------- the assertions

  /** epoll_ctl and the poller's assertions take a change of mask exactly for a descriptor that
      is new to the poller, or known there under this connection and watched as its index says. */
  lemma UpdateAssertsExactly(s: Sys, c: nat, events: Mask)
    requires Shaped(s) && c < |s.conns|
    ensures var k := s.conns[c]; var p := s.loops[k.loop].poller; var known := k.chan.fd in p.channels && p.channels[k.chan.fd] == c;
      SetEvents(s, c, events).ok == match k.chan.index
        case New => s.ok && k.chan.fd !in p.channels && k.chan.fd !in p.kernel
        case Deleted => s.ok && known && k.chan.fd !in p.kernel
        case Added => s.ok && known && k.chan.fd in p.kernel
    ensures var k := s.conns[c]; var p := s.loops[k.loop].poller; var known := k.chan.fd in p.channels && p.channels[k.chan.fd] == c;
      Unregister(s, c).ok <==> s.ok && known && k.chan.index != New && (k.chan.index == Added ==> k.chan.fd in p.kernel)
  {
  }

  /** Each assertion of the life cycle holds exactly when it should, in any state: a connection
      is established from connecting, closed from open, and erased from the registry once; the
      kernel reports descriptors the poller knows. */
  lemma AssertsExactly(s: Sys, c: nat)
    requires Shaped(s) && c < |s.conns|
    ensures var k := s.conns[c];
      ConnectEstablished(s, c).ok <==> SetEvents(s, c, k.chan.events | READ_EVENT).ok && k.state == Connecting
    ensures RemoveConnectionInLoop(s, c).ok <==> s.ok && c in s.registry
    ensures HandleClose(s, c).ok <==>
      && SetEvents(s, c, NONE_EVENT).ok && s.conns[c].state in {Connected, Disconnecting}
      && (s.conns[c].loop == BASE ==> c in s.registry)
    ensures s.conns[c].state != Connected ==> (ConnectDestroyed(s, c).ok <==> Unregister(s, c).ok)
  {
    UpdateAssertsExactly(s, c, NONE_EVENT);
  }

  lemma PollAssertsExactly(s: Sys, l: nat, ready: set<int>)
    requires Enabled(s, PollReturns(l, ready))
    ensures Next(s, PollReturns(l, ready)).ok <==> s.ok && ready <= s.loops[l].poller.channels.Keys
  {
  }
}
