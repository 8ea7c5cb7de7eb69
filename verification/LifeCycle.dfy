/** The states of a TCP connection. */
module ConnectionState {
  datatype State = Disconnected | Connecting | Connected | Disconnecting
}

/**
 The life of a connection across the accept loop (loop 0) and its I/O loop.

 Connections are created and forgotten in loop 0, established, served and
 destroyed in their own loop, and the two sides talk only through the loops'
 FIFO queues of functors.  The model is a state machine: one step is one atomic
 stretch of one loop thread, and steps of different loops interleave freely.
 A turn of a loop is poll, handle the ready channels, swap the queue, run the
 batch (see EventLoop.dfy for the queue itself).
 */
module LifeCycle {
  import opened PollerSpec
  import opened ConnectionState

  // What a connection went through, oldest first.
  datatype Event = Established | Handled | Down | Destroyed

  datatype Conn = Conn(loop: nat, chan: Chan, state: State, reading: bool, history: seq<Event>)

  // Queued functors; each holds a shared pointer to its connection.
  datatype Task =
    | Establish(c: nat)
    | RemoveInLoop(c: nat)
    | Destroy(c: nat)
    | WriteComplete(c: nat)
    | HighWater(c: nat)

  datatype Phase = Polling | Handling | Running

  /** `active` are the ready channels not yet handled in this turn, `batch` the
      functors still to run in this turn, `pending` the queue. */
  datatype Loop = Loop(phase: Phase, active: set<nat>, batch: seq<Task>, pending: seq<Task>, poller: Poller<nat>)

  /** A connection is named by its position in `conns` (the source numbers names with
      nextConnId_); `registry` is connections_.  `ok` falls when an assertion fails. */
  datatype Sys = Sys(conns: seq<Conn>, registry: set<nat>, loops: seq<Loop>, ok: bool)

  const BASE: nat := 0

  predicate Shaped(s: Sys) {
    && BASE < |s.loops|
    && forall c :: 0 <= c < |s.conns| ==> s.conns[c].loop < |s.loops|
  }

  /** No step on an existing connection creates or moves connections or loops. */
  ghost predicate Kept(s: Sys, r: Sys) {
    && Shaped(r) && |r.conns| == |s.conns| && |r.loops| == |s.loops|
    && forall d :: 0 <= d < |s.conns| ==> r.conns[d].loop == s.conns[d].loop
  }

  // ---------------------------------------------------------------- primitives

  function Push(s: Sys, l: nat, t: Task): (r: Sys)
    requires l < |s.loops|
  {
    s.(loops := s.loops[l := s.loops[l].(pending := s.loops[l].pending + [t])])
  }

  function Log(s: Sys, c: nat, e: Event): Sys
    requires c < |s.conns|
  {
    s.(conns := s.conns[c := s.conns[c].(history := s.conns[c].history + [e])])
  }

  function SetState(s: Sys, c: nat, state: State): Sys
    requires c < |s.conns|
  {
    s.(conns := s.conns[c := s.conns[c].(state := state)])
  }

  function Assert(s: Sys, holds: bool): Sys {
    s.(ok := s.ok && holds)
  }

  function Place(s: Sys, c: nat, o: Outcome<nat>): (r: Sys)
    requires Shaped(s) && c < |s.conns|
    ensures Kept(s, r)
  {
    var k := s.conns[c];
    Sys(s.conns[c := k.(chan := o.chan)], s.registry,
        s.loops[k.loop := s.loops[k.loop].(poller := o.poller)], s.ok && o.ok)
  }

  function SetEvents(s: Sys, c: nat, events: Mask): (r: Sys)
    requires Shaped(s) && c < |s.conns|
    ensures Kept(s, r)
  {
    var k := s.conns[c];
    Place(s, c, UpdateChannel(s.loops[k.loop].poller, c, k.chan.(events := events)))
  }

  function Unregister(s: Sys, c: nat): (r: Sys)
    requires Shaped(s) && c < |s.conns|
    ensures Kept(s, r)
  {
    var k := s.conns[c];
    Place(s, c, RemoveChannel(s.loops[k.loop].poller, c, k.chan))
  }

  // ------------------------------------------------- TcpConnection and TcpServer

  function ConnectEstablished(s: Sys, c: nat): (r: Sys)
    requires Shaped(s) && c < |s.conns|
    ensures Kept(s, r)
  {
    var s1 := SetState(Assert(s, s.conns[c].state == Connecting), c, Connected);
    Log(SetEvents(s1, c, s1.conns[c].chan.events | READ_EVENT), c, Established)
  }

  function ConnectDestroyed(s: Sys, c: nat): (r: Sys)
    requires Shaped(s) && c < |s.conns|
    ensures Kept(s, r)
  {
    var s1 := if s.conns[c].state == Connected
              then Log(SetEvents(SetState(s, c, Disconnected), c, NONE_EVENT), c, Down) else s;
    Log(Unregister(s1, c), c, Destroyed)
  }

  function RemoveConnectionInLoop(s: Sys, c: nat): (r: Sys)
    requires Shaped(s) && c < |s.conns|
    ensures Kept(s, r)
  {
    var s1 := Assert(s, c in s.registry).(registry := s.registry - {c});
    Push(s1, s.conns[c].loop, Destroy(c))
  }

  /** runInLoop: at once when the caller is already in loop 0, else queued there. */
  function RemoveConnection(s: Sys, c: nat): (r: Sys)
    requires Shaped(s) && c < |s.conns|
    ensures Kept(s, r)
  {
    if s.conns[c].loop == BASE then RemoveConnectionInLoop(s, c) else Push(s, BASE, RemoveInLoop(c))
  }

  function HandleClose(s: Sys, c: nat): (r: Sys)
    requires Shaped(s) && c < |s.conns|
    ensures Kept(s, r)
  {
    var s1 := Assert(s, s.conns[c].state in {Connected, Disconnecting});
    var s2 := Log(SetEvents(SetState(s1, c, Disconnected), c, NONE_EVENT), c, Down);
    RemoveConnection(s2, c)
  }

  function Shutdown(s: Sys, c: nat): Sys
    requires c < |s.conns|
  {
    if s.conns[c].state == Connected then SetState(s, c, Disconnecting) else s
  }

  function SetReading(s: Sys, c: nat, on: bool): Sys
    requires c < |s.conns|
  {
    s.(conns := s.conns[c := s.conns[c].(reading := on)])
  }

  function StartRead(s: Sys, c: nat): (r: Sys)
    requires Shaped(s) && c < |s.conns|
    ensures Kept(s, r)
  {
    var k := s.conns[c];
    if !k.reading || !IsReading(k.chan.events)
    then SetReading(SetEvents(s, c, k.chan.events | READ_EVENT), c, true) else s
  }

  function StopRead(s: Sys, c: nat): (r: Sys)
    requires Shaped(s) && c < |s.conns|
    ensures Kept(s, r)
  {
    var k := s.conns[c];
    if k.reading || IsReading(k.chan.events)
    then SetReading(SetEvents(s, c, k.chan.events & !READ_EVENT), c, false) else s
  }

  /** What one send left behind: everything written, or a rest in the output buffer which
      may have crossed the high-water mark, or an assertion failed in it (a direct send
      that fails, or an output buffer that compacts: see ConnectionSpec.SendFailsExactly). */
  datatype Sent = Whole | Spilled(high: bool) | Refused

  function SendInLoop(s: Sys, c: nat, sent: Sent): (r: Sys)
    requires Shaped(s) && c < |s.conns|
    ensures Kept(s, r)
  {
    var k := s.conns[c];
    if sent.Refused? then Assert(s, false)
    else if sent.Whole? && !IsWriting(k.chan.events) then Push(s, k.loop, WriteComplete(c))
    else
      var s1 := if sent.Spilled? && sent.high then Push(s, k.loop, HighWater(c)) else s;
      if IsWriting(k.chan.events) then s1 else SetEvents(s1, c, k.chan.events | WRITE_EVENT)
  }

  function Sends(s: Sys, c: nat, sends: seq<Sent>): (r: Sys)
    requires Shaped(s) && c < |s.conns|
    ensures Kept(s, r)
    decreases |sends|
  {
    if sends == [] then s else Sends(SendInLoop(s, c, sends[0]), c, sends[1..])
  }

  predicate NoneRefused(sends: seq<Sent>) { forall sent <- sends :: !sent.Refused? }

  /** What the message callback does: sends, then perhaps shutdown.  Neither has any
      effect on a connection that is no longer Connected. */
  datatype Reply = Reply(sends: seq<Sent>, shutdown: bool)

  function OnMessage(s: Sys, c: nat, reply: Reply): (r: Sys)
    requires Shaped(s) && c < |s.conns|
    ensures Kept(s, r)
  {
    var s1 := if s.conns[c].state == Connected then Sends(s, c, reply.sends) else s;
    Log(if reply.shutdown then Shutdown(s1, c) else s1, c, Handled)
  }

  /** `n` is what reading the socket returned. */
  function HandleRead(s: Sys, c: nat, n: int, reply: Reply): (r: Sys)
    requires Shaped(s) && c < |s.conns|
    ensures Kept(s, r)
  {
    if n > 0 then OnMessage(s, c, reply) else if n == 0 then HandleClose(s, c) else s
  }

  function HandleWrite(s: Sys, c: nat, drained: bool): (r: Sys)
    requires Shaped(s) && c < |s.conns|
    ensures Kept(s, r)
  {
    var k := s.conns[c];
    if !IsWriting(k.chan.events) then s
    else if drained then
      Log(Push(SetEvents(s, c, k.chan.events & !WRITE_EVENT), k.loop, WriteComplete(c)), c, Handled)
    else Log(s, c, Handled)
  }

  datatype Revents = Revents(input: bool, pri: bool, rdhup: bool, hup: bool, output: bool)

  function HandleEvent(s: Sys, c: nat, ev: Revents, n: int, reply: Reply, drained: bool): (r: Sys)
    requires Shaped(s) && c < |s.conns|
    ensures Kept(s, r)
  {
    var s1 := if ev.hup && !ev.input then HandleClose(s, c) else s;
    var s2 := if ev.input || ev.pri || ev.rdhup then HandleRead(s1, c, n, reply) else s1;
    if ev.output then HandleWrite(s2, c, drained) else s2
  }

  function NewConnection(s: Sys, fd: int, l: nat): Sys
    requires Shaped(s) && l < |s.loops|
  {
    var c := |s.conns|;
    var s1 := s.(conns := s.conns + [Conn(l, Chan(fd, NONE_EVENT, New), Connecting, false, [])],
                 registry := s.registry + {c});
    if l == BASE then ConnectEstablished(s1, c) else Push(s1, l, Establish(c))
  }

  function RunTask(s: Sys, t: Task): (r: Sys)
    requires Shaped(s) && t.c < |s.conns|
    ensures Kept(s, r)
  {
    match t
    case Establish(c) => ConnectEstablished(s, c)
    case RemoveInLoop(c) => RemoveConnectionInLoop(s, c)
    case Destroy(c) => ConnectDestroyed(s, c)
    case WriteComplete(c) => Log(StartRead(s, c), c, Handled)
    case HighWater(c) => Log(StopRead(s, c), c, Handled)
  }

  // ---------------------------------------------------------------------- steps

  datatype Step =
    | PollReturns(l: nat, ready: set<int>)
    | Accept(fd: int, l: nat)
    | Handle(l: nat, c: nat, ev: Revents, n: int, reply: Reply, drained: bool)
    | IdleTimeout(l: nat, c: nat)
    | UserStartRead(l: nat, c: nat)  // code holding the connection calls startRead in its loop
    | Swap(l: nat)
    | RunNext(l: nat)
    | EndBatch(l: nat)

  /** Something still holds a shared pointer: the registry or a functor not yet run. */
  ghost predicate Owned(s: Sys, c: nat) {
    c in s.registry ||
    exists l, t :: 0 <= l < |s.loops| && (t in s.loops[l].batch || t in s.loops[l].pending) && t.c == c
  }

  ghost predicate Enabled(s: Sys, step: Step) {
    Shaped(s) && step.l < |s.loops| &&
    var lp := s.loops[step.l];
    match step
    case PollReturns(l, ready) => lp.phase == Polling && ready <= lp.poller.kernel.Keys
    case Accept(fd, l) =>
      // the kernel hands out a descriptor no living connection has open
      s.loops[BASE].phase == Handling &&
      forall c :: 0 <= c < |s.conns| && Owned(s, c) ==> s.conns[c].chan.fd != fd
    case Handle(l, c, ev, n, reply, drained) => lp.phase == Handling && c in lp.active && c < |s.conns|
    case IdleTimeout(l, c) => lp.phase == Handling && c < |s.conns| && s.conns[c].loop == l
    case UserStartRead(l, c) => lp.phase == Handling && c < |s.conns| && s.conns[c].loop == l
    case Swap(l) => lp.phase == Handling && lp.active == {}
    case RunNext(l) => lp.phase == Running && lp.batch != [] && lp.batch[0].c < |s.conns|
    case EndBatch(l) => lp.phase == Running && lp.batch == []
  }

  ghost function Next(s: Sys, step: Step): Sys
    requires Enabled(s, step)
  {
    var lp := s.loops[step.l];
    match step
    case PollReturns(l, ready) =>
      var active := set fd | fd in ready && fd in lp.poller.channels :: lp.poller.channels[fd];
      Assert(s, ready <= lp.poller.channels.Keys).(loops := s.loops[l := lp.(phase := Handling, active := active)])
    case Accept(fd, l) => NewConnection(s, fd, l)
    case Handle(l, c, ev, n, reply, drained) =>
      HandleEvent(s.(loops := s.loops[l := lp.(active := lp.active - {c})]), c, ev, n, reply, drained)
    case IdleTimeout(l, c) => Shutdown(s, c)
    case UserStartRead(l, c) => StartRead(s, c)
    case Swap(l) => s.(loops := s.loops[l := lp.(phase := Running, batch := lp.pending, pending := [])])
    case RunNext(l) => RunTask(s.(loops := s.loops[l := lp.(batch := lp.batch[1..])]), lp.batch[0])
    case EndBatch(l) => s.(loops := s.loops[l := lp.(phase := Polling)])
  }
}
