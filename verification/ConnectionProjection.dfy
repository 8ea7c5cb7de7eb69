/**
 The two models of a connection agree: what the output path (ConnectionSpec) does to its
 state, its interest and its callbacks is what the life cycle (LifeCycle) does to the
 connection of that number, with the outcome of each send decided by the output path.
 */
module ConnectionProjection {
  import opened PollerSpec
  import opened Buffers
  import opened ConnectionState
  import opened LifeCycle
  import Output = ConnectionSpec

  // -------------------------------------------------------------------- callbacks

  predicate IsCallbackOf(t: Task, x: nat) { t in {WriteComplete(x), HighWater(x)} }

  /** The write-complete and high-water callbacks of connection `x` in a queue. */
  function CallbacksOf(q: seq<Task>, x: nat): seq<Task> {
    if q == [] then [] else Only(q[0], x) + CallbacksOf(q[1..], x)
  }

  function Only(t: Task, x: nat): seq<Task> { if IsCallbackOf(t, x) then [t] else [] }

  lemma {:induction false} CallbacksSnoc(q: seq<Task>, t: Task, x: nat)
    ensures CallbacksOf(q + [t], x) == CallbacksOf(q, x) + Only(t, x)
    decreases |q|
  {
    var r := q + [t];
    if q == [] {
      assert r[1..] == [] && r[0] == t;
    } else {
      assert r[1..] == q[1..] + [t] && r[0] == q[0];
      CallbacksSnoc(q[1..], t, x);
      Regroup(Only(q[0], x), CallbacksOf(q[1..], x), Only(t, x));
    }
  }

  lemma Regroup(a: seq<Task>, b: seq<Task>, c: seq<Task>)
    ensures a + (b + c) == (a + b) + c
  {
  }

  function TaskOf(f: Output.Functor, x: nat): Task {
    if f.OnWriteComplete? then WriteComplete(x) else HighWater(x)
  }

  function TasksOf(fs: seq<Output.Functor>, x: nat): seq<Task> {
    seq(|fs|, i requires 0 <= i < |fs| => TaskOf(fs[i], x))
  }

  /** Those of `x` still to be run, oldest first. */
  function Waiting(s: Sys, x: nat): seq<Task>
    requires Shaped(s) && x < |s.conns|
  {
    var lp := s.loops[s.conns[x].loop];
    CallbacksOf(lp.batch, x) + CallbacksOf(lp.pending, x)
  }

  // ------------------------------------------------------------------- projection

  predicate SameConn(c: Output.Conn, k: Conn) {
    k.state == c.state && InterestOf(k.chan.events) == c.events && k.reading == c.reading
  }

  /** Connection `x` of the life cycle is the one whose output path is `c`.  HttpServer sets
      the write-complete callback; forceClose is not part of the life cycle. */
  predicate Mirrors(c: Output.Conn, s: Sys, x: nat) {
    && Shaped(s) && x < |s.conns| && c.hasWriteComplete && Output.ForceCloseInLoop !in c.queue
    && SameConn(c, s.conns[x]) && Waiting(s, x) == TasksOf(c.queue, x)
  }

  /** What a send leaves behind. */
  function SentOf(c: Output.Conn, message: seq<byte>, n: int): Sent
    requires n <= |message|
  {
    var k := Output.Written(c, message, n);
    var len := |c.out| + |message| - k;
    if !Output.SendOk(c, message, n) then Refused
    else if k == |message| then Whole
    else Spilled(len > c.mark && |c.out| < c.mark && c.hasHigh)
  }

  /** Each of a list of sends, up to one that fails. */
  function SentList(c: Output.Conn, sends: seq<Output.Op>): seq<Sent>
    requires Output.AllSends(sends) && Output.Run(c, sends) != Output.Impossible
    decreases |sends|
  {
    if sends == [] then []
    else
      assert sends[0] in sends && forall op <- sends[1..] :: op in sends;
      [SentOf(c, sends[0].message, sends[0].n)] +
      if Output.AssertsHold(c, sends[0]) then SentList(Output.Apply(c, sends[0]), sends[1..]) else []
  }

  // ------------------------------------------------------ how the life cycle moves

  lemma PushWaiting(s: Sys, l: nat, x: nat, t: Task)
    requires Shaped(s) && x < |s.conns| && l < |s.loops| && (IsCallbackOf(t, x) ==> l == s.conns[x].loop)
    ensures var r := Push(s, l, t);
      r.conns == s.conns && Waiting(r, x) == Waiting(s, x) + Only(t, x)
  {
    var lp := s.loops[s.conns[x].loop];
    CallbacksSnoc(lp.pending, t, x);
    Regroup(CallbacksOf(lp.batch, x), CallbacksOf(lp.pending, x), Only(t, x));
  }

  lemma WriteOn(m: Mask)
    ensures InterestOf(m | WRITE_EVENT) == InterestOf(m).(write := true)
  {
    InterestUpdates(m);
  }

  lemma WriteOff(m: Mask)
    ensures InterestOf(m & !WRITE_EVENT) == InterestOf(m).(write := false)
  {
    InterestUpdates(m);
  }

  lemma ReadOn(m: Mask)
    ensures InterestOf(m | READ_EVENT) == InterestOf(m).(read := true)
  {
    InterestUpdates(m);
  }

  lemma ReadOff(m: Mask)
    ensures InterestOf(m & !READ_EVENT) == InterestOf(m).(read := false)
  {
    InterestUpdates(m);
  }

  /** A new mask changes the interest, and nothing else that is compared. */
  lemma SetEventsEffect(s: Sys, x: nat, events: Mask, wanted: Interest)
    requires Shaped(s) && x < |s.conns| && InterestOf(events) == wanted
    ensures var r := SetEvents(s, x, events);
      && InterestOf(r.conns[x].chan.events) == wanted && r.conns[x].loop == s.conns[x].loop
      && r.conns[x].state == s.conns[x].state && r.conns[x].reading == s.conns[x].reading
      && Waiting(r, x) == Waiting(s, x)
  {
  }

  lemma SetReadingEffect(s: Sys, x: nat, events: Mask, wanted: Interest, on: bool)
    requires Shaped(s) && x < |s.conns| && InterestOf(events) == wanted
    ensures var r := SetReading(SetEvents(s, x, events), x, on);
      && Shaped(r) && x < |r.conns| && InterestOf(r.conns[x].chan.events) == wanted
      && r.conns[x].state == s.conns[x].state && r.conns[x].reading == on && Waiting(r, x) == Waiting(s, x)
  {
    SetEventsEffect(s, x, events, wanted);
  }

  lemma TasksSnoc(fs: seq<Output.Functor>, f: Output.Functor, x: nat)
    ensures TasksOf(fs + [f], x) == TasksOf(fs, x) + [TaskOf(f, x)]
  {
  }

  // --------------------------------------------------------------------- sending

  lemma WholeMirrored(c: Output.Conn, s: Sys, x: nat, message: seq<byte>, n: int)
    requires Mirrors(c, s, x) && Output.Inv(c) && c.state == Connected && n <= |message| && SentOf(c, message, n).Whole?
    ensures Mirrors(Output.Send(c, message, n), SendInLoop(s, x, Whole), x)
  {
    if Output.Direct(c) {
      PushWaiting(s, s.conns[x].loop, x, WriteComplete(x));
      TasksSnoc(c.queue, Output.OnWriteComplete, x);
    }
  }

  lemma SpilledOutput(c: Output.Conn, message: seq<byte>, n: int)
    requires c.state == Connected && n <= |message| && SentOf(c, message, n).Spilled?
    ensures Output.SendOk(c, message, n)
    ensures var d := Output.Send(c, message, n); var len := |c.out| + |message| - Output.Written(c, message, n);
      && d.state == c.state && d.reading == c.reading && d.hasWriteComplete == c.hasWriteComplete
      && d.events == c.events.(write := true)
      && d.queue == if SentOf(c, message, n).high then c.queue + [Output.OnHighWater(len)] else c.queue
  {
  }

  function WithWrites(s: Sys, x: nat): Sys
    requires Shaped(s) && x < |s.conns|
  {
    var events := s.conns[x].chan.events;
    if IsWriting(events) then s else SetEvents(s, x, events | WRITE_EVENT)
  }

  lemma WithWritesEffect(s: Sys, x: nat)
    requires Shaped(s) && x < |s.conns|
    ensures var r := WithWrites(s, x);
      && Shaped(r) && x < |r.conns| && r.conns[x].state == s.conns[x].state && r.conns[x].reading == s.conns[x].reading
      && InterestOf(r.conns[x].chan.events) == InterestOf(s.conns[x].chan.events).(write := true)
      && Waiting(r, x) == Waiting(s, x)
  {
    var events := s.conns[x].chan.events;
    WriteOn(events);
    SetEventsEffect(s, x, events | WRITE_EVENT, InterestOf(events).(write := true));
  }

  lemma SpilledSys(s: Sys, x: nat, high: bool)
    requires Shaped(s) && x < |s.conns|
    ensures var r := SendInLoop(s, x, Spilled(high)); var k := s.conns[x];
      && r.conns[x].state == k.state && r.conns[x].reading == k.reading
      && InterestOf(r.conns[x].chan.events) == InterestOf(k.chan.events).(write := true)
      && Waiting(r, x) == if high then Waiting(s, x) + [HighWater(x)] else Waiting(s, x)
  {
    PushWaiting(s, s.conns[x].loop, x, HighWater(x));
    var m := if high then Push(s, s.conns[x].loop, HighWater(x)) else s;
    assert SendInLoop(s, x, Spilled(high)) == WithWrites(m, x);
    WithWritesEffect(m, x);
  }

  lemma SpilledMirrored(c: Output.Conn, s: Sys, x: nat, message: seq<byte>, n: int)
    requires Mirrors(c, s, x) && c.state == Connected && n <= |message| && SentOf(c, message, n).Spilled?
    ensures Output.SendOk(c, message, n)
    ensures Mirrors(Output.Send(c, message, n), SendInLoop(s, x, SentOf(c, message, n)), x)
  {
    SpilledOutput(c, message, n);
    SpilledSys(s, x, SentOf(c, message, n).high);
    TasksSnoc(c.queue, Output.OnHighWater(|c.out| + |message| - Output.Written(c, message, n)), x);
  }

  lemma SendMirrored(c: Output.Conn, s: Sys, x: nat, message: seq<byte>, n: int)
    requires Mirrors(c, s, x) && Output.Inv(c) && c.state == Connected && n <= |message|
    ensures var sent := SentOf(c, message, n); var r := SendInLoop(s, x, sent);
      if sent.Refused? then !Output.SendOk(c, message, n) && !r.ok
      else Output.SendOk(c, message, n) && Mirrors(Output.Send(c, message, n), r, x)
  {
    match SentOf(c, message, n)
    case Refused =>
    case Whole => WholeMirrored(c, s, x, message, n);
    case Spilled(_) => SpilledMirrored(c, s, x, message, n);
  }

  lemma {:induction false} SendsMirrored(c: Output.Conn, s: Sys, x: nat, sends: seq<Output.Op>)
    requires Mirrors(c, s, x) && Output.Inv(c) && c.state == Connected
    requires Output.AllSends(sends) && Output.Run(c, sends) != Output.Impossible
    ensures var sents := SentList(c, sends); var o := Output.Run(c, sends);
      && (NoneRefused(sents) <==> o.Reached?)
      && (o.Reached? ==> Output.Inv(o.c) && o.c.state == Connected && Mirrors(o.c, Sends(s, x, sents), x))
    decreases |sends|
  {
    if sends != [] {
      var op := sends[0];
      Output.AllSendsTail(sends);
      SendMirrored(c, s, x, op.message, op.n);
      var sent := SentOf(c, op.message, op.n);
      if Output.AssertsHold(c, op) {
        Output.SendKeeps(c, op.message, op.n);
        Output.SendAccepted(c, op);
        var d := Output.Apply(c, op);
        SendsMirrored(d, SendInLoop(s, x, sent), x, sends[1..]);
        assert SentList(c, sends) == [sent] + SentList(d, sends[1..]);
        assert SentList(c, sends)[1..] == SentList(d, sends[1..]);
      } else {
        assert SentList(c, sends) == [sent] && sent in SentList(c, sends);
      }
    }
  }

  // ------------------------------------------------------------------ the message

  /** The steps of a message callback on the output path. */
  function MessageOps(sends: seq<Output.Op>, shutdown: bool): seq<Output.Op> {
    sends + if shutdown then [Output.DoShutdown] else []
  }

  lemma LogMirrored(c: Output.Conn, s: Sys, x: nat, e: Event)
    requires Mirrors(c, s, x)
    ensures Mirrors(c, Log(s, x, e), x)
  {
  }

  lemma ShutdownMirrored(c: Output.Conn, s: Sys, x: nat)
    requires Mirrors(c, s, x)
    ensures Mirrors(Output.Shutdown(c), Shutdown(s, x), x)
  {
  }

  lemma {:induction false} NoSendOutside(c: Output.Conn, sends: seq<Output.Op>)
    requires c.state != Connected && Output.AllSends(sends) && Output.Run(c, sends) != Output.Impossible
    ensures Output.Run(c, sends) == Output.Reached(c)
    decreases |sends|
  {
    if sends != [] {
      Output.AllSendsTail(sends);
      NoSendOutside(c, sends[1..]);
    }
  }

  /** A message callback that sends and perhaps shuts down: it fails an assertion in one model
      exactly when it does in the other, and else leaves the same connection.  Once the
      connection is no longer connected it has no effect in either. */
  lemma MessageMirrored(c: Output.Conn, s: Sys, x: nat, sends: seq<Output.Op>, shutdown: bool)
    requires Mirrors(c, s, x) && Output.Inv(c)
    requires Output.AllSends(sends) && Output.Run(c, sends) != Output.Impossible
    ensures var o := Output.Run(c, MessageOps(sends, shutdown)); var reply := Reply(SentList(c, sends), shutdown);
      && (o.Reached? <==> c.state != Connected || NoneRefused(reply.sends))
      && (o.Reached? ==> Mirrors(o.c, OnMessage(s, x, reply), x))
  {
    if c.state == Connected {
      SendsMirrored(c, s, x, sends);
    } else {
      NoSendOutside(c, sends);
    }
    var o := Output.Run(c, sends);
    if o.Reached? {
      ShutdownRuns(o.c, sends, shutdown, c);
      var m := if c.state == Connected then Sends(s, x, SentList(c, sends)) else s;
      ShutdownMirrored(o.c, m, x);
      LogMirrored(if shutdown then Output.Shutdown(o.c) else o.c, if shutdown then Shutdown(m, x) else m, x, Handled);
    } else {
      Output.RunAppend(c, sends, if shutdown then [Output.DoShutdown] else []);
    }
  }

  lemma ShutdownRuns(d: Output.Conn, sends: seq<Output.Op>, shutdown: bool, c: Output.Conn)
    requires Output.Run(c, sends) == Output.Reached(d)
    ensures Output.Run(c, MessageOps(sends, shutdown)) == Output.Reached(if shutdown then Output.Shutdown(d) else d)
  {
    var last := if shutdown then [Output.DoShutdown] else [];
    Output.RunAppend(c, sends, last);
    if shutdown {
      assert last[1..] == [];
    }
  }

  // ------------------------------------------------------- writing and closing

  /** The buffer drains when the socket takes all of it. */
  predicate Drains(c: Output.Conn, n: int) { n > 0 && n == |c.out| }

  lemma DrainedOutput(c: Output.Conn, n: int)
    requires c.events.write && Drains(c, n) && c.hasWriteComplete
    ensures var d := Output.HandleWrite(c, n);
      && d.state == c.state && d.reading == c.reading && d.hasWriteComplete && d.events == c.events.(write := false)
      && d.queue == c.queue + [Output.OnWriteComplete]
  {
  }

  lemma LogWaiting(s: Sys, x: nat, e: Event)
    requires Shaped(s) && x < |s.conns|
    ensures var r := Log(s, x, e);
      && Shaped(r) && r.conns[x].chan == s.conns[x].chan && r.conns[x].state == s.conns[x].state
      && r.conns[x].reading == s.conns[x].reading && Waiting(r, x) == Waiting(s, x)
  {
  }

  lemma DrainedSys(s: Sys, x: nat)
    requires Shaped(s) && x < |s.conns| && IsWriting(s.conns[x].chan.events)
    ensures var r := HandleWrite(s, x, true); var k := s.conns[x];
      && r.conns[x].state == k.state && r.conns[x].reading == k.reading
      && InterestOf(r.conns[x].chan.events) == InterestOf(k.chan.events).(write := false)
      && Waiting(r, x) == Waiting(s, x) + [WriteComplete(x)]
  {
    var k := s.conns[x];
    WriteOff(k.chan.events);
    SetEventsEffect(s, x, k.chan.events & !WRITE_EVENT, InterestOf(k.chan.events).(write := false));
    var m := SetEvents(s, x, k.chan.events & !WRITE_EVENT);
    PushWaiting(m, k.loop, x, WriteComplete(x));
    LogWaiting(Push(m, k.loop, WriteComplete(x)), x, Handled);
  }

  lemma UndrainedOutput(c: Output.Conn, n: int)
    requires n <= |c.out| && !(c.events.write && Drains(c, n))
    ensures var d := Output.HandleWrite(c, n);
      && d.state == c.state && d.reading == c.reading && d.hasWriteComplete == c.hasWriteComplete && d.events == c.events
      && d.queue == c.queue
  {
  }

  lemma WriteMirrored(c: Output.Conn, s: Sys, x: nat, n: int)
    requires Mirrors(c, s, x) && n <= |c.out|
    ensures Mirrors(Output.HandleWrite(c, n), HandleWrite(s, x, Drains(c, n)), x)
  {
    if c.events.write && Drains(c, n) {
      DrainedOutput(c, n);
      DrainedSys(s, x);
      TasksSnoc(c.queue, Output.OnWriteComplete, x);
    } else {
      UndrainedOutput(c, n);
      LogMirrored(c, s, x, Handled);
    }
  }

  lemma StartReadMirrored(c: Output.Conn, s: Sys, x: nat)
    requires Mirrors(c, s, x)
    ensures Mirrors(Output.StartRead(c), StartRead(s, x), x)
  {
    ReadOn(s.conns[x].chan.events);
    SetReadingEffect(s, x, s.conns[x].chan.events | READ_EVENT, c.events.(read := true), true);
  }

  lemma StopReadMirrored(c: Output.Conn, s: Sys, x: nat)
    requires Mirrors(c, s, x)
    ensures Mirrors(Output.StopRead(c), StopRead(s, x), x)
  {
    ReadOff(s.conns[x].chan.events);
    SetReadingEffect(s, x, s.conns[x].chan.events & !READ_EVENT, c.events.(read := false), false);
  }

  lemma CloseMirrored(c: Output.Conn, s: Sys, x: nat)
    requires Mirrors(c, s, x)
    ensures Mirrors(Output.HandleClose(c), HandleClose(s, x), x)
    ensures Output.AssertsHold(c, Output.PeerClosed) <==> s.conns[x].state in {Connected, Disconnecting}
  {
    var s1 := SetState(Assert(s, s.conns[x].state in {Connected, Disconnecting}), x, Disconnected);
    InterestUpdates(NONE_EVENT);
    SetEventsEffect(s1, x, NONE_EVENT, Interest(false, false));
    var s2 := Log(SetEvents(s1, x, NONE_EVENT), x, Down);
    PushWaiting(s2, BASE, x, RemoveInLoop(x));
    PushWaiting(Assert(s2, x in s2.registry).(registry := s2.registry - {x}), s2.conns[x].loop, x, Destroy(x));
  }

  /** Both start from the same connection. */
  lemma EstablishedMirrored(s: Sys, x: nat, mark: nat, hasHigh: bool)
    requires Shaped(s) && x < |s.conns| && s.conns[x].chan.events == NONE_EVENT && !s.conns[x].reading && Waiting(s, x) == []
    ensures Mirrors(Output.Established(mark, hasHigh, true), ConnectEstablished(s, x), x)
  {
    var s1 := SetState(Assert(s, s.conns[x].state == Connecting), x, Connected);
    InterestUpdates(NONE_EVENT);
    SetEventsEffect(s1, x, NONE_EVENT | READ_EVENT, Interest(true, false));
    LogWaiting(SetEvents(s1, x, NONE_EVENT | READ_EVENT), x, Established);
  }

  // ------------------------------------------------------------ queued callbacks

  lemma TasksHead(fs: seq<Output.Functor>, x: nat, t: Task, rest: seq<Task>)
    requires TasksOf(fs, x) == [t] + rest
    ensures fs != [] && t == TaskOf(fs[0], x) && rest == TasksOf(fs[1..], x)
  {
    assert |TasksOf(fs, x)| == |fs| && TasksOf(fs, x)[0] == TaskOf(fs[0], x);
    assert rest == TasksOf(fs, x)[1..];
  }

  /** The next functor of the loop is one of `x`: it is the oldest its output path queued. */
  lemma HeadMirrored(c: Output.Conn, s: Sys, m: Sys, x: nat)
    requires Mirrors(c, s, x)
    requires var l := s.conns[x].loop; var lp := s.loops[l];
      lp.batch != [] && IsCallbackOf(lp.batch[0], x) && m == s.(loops := s.loops[l := lp.(batch := lp.batch[1..])])
    ensures c.queue != [] && s.loops[s.conns[x].loop].batch[0] == TaskOf(c.queue[0], x)
    ensures Mirrors(c.(queue := c.queue[1..]), m, x)
  {
    var lp := s.loops[s.conns[x].loop];
    Regroup([lp.batch[0]], CallbacksOf(lp.batch[1..], x), CallbacksOf(lp.pending, x));
    TasksHead(c.queue, x, lp.batch[0], Waiting(m, x));
  }

  /** Running it does to both what HttpServer's callbacks do. */
  lemma CallbackMirrored(c: Output.Conn, s: Sys, x: nat)
    requires Mirrors(c, s, x) && Enabled(s, RunNext(s.conns[x].loop)) && IsCallbackOf(s.loops[s.conns[x].loop].batch[0], x)
    ensures c.queue != [] && Mirrors(Output.RunFunctor(c), Next(s, RunNext(s.conns[x].loop)), x)
  {
    var l := s.conns[x].loop;
    var lp := s.loops[l];
    var m := s.(loops := s.loops[l := lp.(batch := lp.batch[1..])]);
    HeadMirrored(c, s, m, x);
    var d := c.(queue := c.queue[1..]);
    if c.queue[0].OnWriteComplete? {
      StartReadMirrored(d, m, x);
      LogMirrored(Output.StartRead(d), StartRead(m, x), x, Handled);
    } else {
      assert c.queue[0] in c.queue;
      StopReadMirrored(d, m, x);
      LogMirrored(Output.StopRead(d), StopRead(m, x), x, Handled);
    }
  }
}
