/**
 TcpServer, its connections and the loops they live in, in place: each method does
 to the objects what the life cycle's step functions do to the state.
 */
module TcpServers {
  import opened PollerSpec
  import opened ConnectionState
  import opened LifeCycle

  /** The part of TcpConnection and its channel that the life cycle is about. */
  class Connection {
    const loop: nat
    const fd: int
    var events: Mask
    var index: Index
    var state: State
    var reading: bool
    var history: seq<Event>

    constructor (loop: nat, fd: int)
      ensures this.loop == loop && Value() == Conn(loop, Chan(fd, NONE_EVENT, New), Connecting, false, [])
    {
      this.loop, this.fd := loop, fd;
      events, index, state, reading, history := NONE_EVENT, New, Connecting, false, [];
    }

    function Value(): Conn
      reads this
    {
      Conn(loop, Chan(fd, events, index), state, reading, history)
    }
  }

  /** An event loop with its queue, the batch it is running and its poller. */
  class IoLoop {
    var phase: Phase
    var active: set<nat>
    var batch: seq<Task>
    var pending: seq<Task>
    var channels: map<int, nat>
    var kernel: map<int, Mask>

    constructor ()
      ensures Value() == Loop(Polling, {}, [], [], Poller(map[], map[]))
    {
      phase, active, batch, pending, channels, kernel := Polling, {}, [], [], map[], map[];
    }

    function Value(): Loop
      reads this
    {
      Loop(phase, active, batch, pending, Poller(channels, kernel))
    }
  }

  ghost function ConnValues(conns: seq<Connection>): seq<Conn>
    reads conns
  {
    seq(|conns|, i requires 0 <= i < |conns| reads conns => conns[i].Value())
  }

  ghost function LoopValues(loops: seq<IoLoop>): seq<Loop>
    reads loops
  {
    seq(|loops|, i requires 0 <= i < |loops| reads loops => loops[i].Value())
  }

  class TcpServer {
    var conns: seq<Connection>   // every connection made so far, by number
    var connections: set<nat>    // the registry
    const loops: seq<IoLoop>
    var ok: bool

    constructor (loops: seq<IoLoop>)
      requires BASE < |loops| && forall i, j :: 0 <= i < j < |loops| ==> loops[i] != loops[j]
      ensures Valid() && conns == [] && Value() == Sys([], {}, LoopValues(loops), true)
    {
      this.loops := loops;
      conns, connections, ok := [], {}, true;
      new;
      assert ConnValues(conns) == [];
    }

    ghost predicate Valid()
      reads this
    {
      && BASE < |loops|
      && (forall i, j :: 0 <= i < j < |loops| ==> loops[i] != loops[j])
      && (forall i, j :: 0 <= i < j < |conns| ==> conns[i] != conns[j])
      && (forall i :: 0 <= i < |conns| ==> conns[i].loop < |loops|)
    }

    ghost function Value(): Sys
      reads this, conns, loops
    {
      Sys(ConnValues(conns), connections, LoopValues(loops), ok)
    }

    // ---------------------------------------------------------------- primitives

    /** What may change: the connection, its loop, and the accept loop. */
    ghost function Touched(c: nat): set<object>
      reads this
      requires Valid() && c < |conns|
    {
      {this, conns[c], loops[conns[c].loop], loops[BASE]}
    }

    method Assert(holds: bool)
      modifies this`ok
      ensures Value() == LifeCycle.Assert(old(Value()), holds)
    {
      ok := ok && holds;
    }

    method Queue(l: nat, t: Task)
      requires Valid() && l < |loops|
      modifies loops[l]
      ensures Value() == Push(old(Value()), l, t)
    {
      loops[l].pending := loops[l].pending + [t];
      assert LoopValues(loops) == old(LoopValues(loops))[l := loops[l].Value()];
    }

    method Log(c: nat, e: Event)
      requires Valid() && c < |conns|
      modifies conns[c]
      ensures Value() == LifeCycle.Log(old(Value()), c, e)
    {
      conns[c].history := conns[c].history + [e];
      assert ConnValues(conns) == old(ConnValues(conns))[c := conns[c].Value()];
    }

    method SetState(c: nat, state: State)
      requires Valid() && c < |conns|
      modifies conns[c]
      ensures Value() == LifeCycle.SetState(old(Value()), c, state)
    {
      conns[c].state := state;
      assert ConnValues(conns) == old(ConnValues(conns))[c := conns[c].Value()];
    }

    method SetReading(c: nat, on: bool)
      requires Valid() && c < |conns|
      modifies conns[c]
      ensures Value() == LifeCycle.SetReading(old(Value()), c, on)
    {
      conns[c].reading := on;
      assert ConnValues(conns) == old(ConnValues(conns))[c := conns[c].Value()];
    }

    /** Channel and poller take what a poller call made of them. */
    method Place(c: nat, o: Outcome<nat>)
      requires Valid() && c < |conns| && o.chan.fd == conns[c].fd
      modifies this`ok, conns[c], loops[conns[c].loop]
      ensures Shaped(old(Value())) && Value() == LifeCycle.Place(old(Value()), c, o)
    {
      var k, lp := conns[c], loops[conns[c].loop];
      k.events, k.index := o.chan.events, o.chan.index;
      lp.channels, lp.kernel := o.poller.channels, o.poller.kernel;
      ok := ok && o.ok;
      assert ConnValues(conns) == old(ConnValues(conns))[c := k.Value()];
      assert LoopValues(loops) == old(LoopValues(loops))[k.loop := lp.Value()];
    }

    method SetEvents(c: nat, events: Mask)
      requires Valid() && c < |conns|
      modifies this`ok, conns[c], loops[conns[c].loop]
      ensures Shaped(old(Value())) && Value() == LifeCycle.SetEvents(old(Value()), c, events)
    {
      var k, lp := conns[c], loops[conns[c].loop];
      Place(c, UpdateChannel(Poller(lp.channels, lp.kernel), c, Chan(k.fd, events, k.index)));
    }

    method Unregister(c: nat)
      requires Valid() && c < |conns|
      modifies this`ok, conns[c], loops[conns[c].loop]
      ensures Shaped(old(Value())) && Value() == LifeCycle.Unregister(old(Value()), c)
    {
      var k, lp := conns[c], loops[conns[c].loop];
      Place(c, RemoveChannel(Poller(lp.channels, lp.kernel), c, Chan(k.fd, k.events, k.index)));
    }

    // --------------------------------------------------- TcpConnection and TcpServer

    method ConnectEstablished(c: nat)
      requires Valid() && c < |conns|
      modifies Touched(c)
      ensures Valid() && conns == old(conns)
      ensures Shaped(old(Value())) && Value() == LifeCycle.ConnectEstablished(old(Value()), c)
    {
      Assert(conns[c].state == Connecting);
      SetState(c, Connected);
      SetEvents(c, conns[c].events | READ_EVENT);
      Log(c, Established);
    }

    /** The common part of both ways down: no more events, then the connection callback. */
    method GoDown(c: nat)
      requires Valid() && c < |conns|
      modifies Touched(c)
      ensures Valid() && conns == old(conns)
      ensures Shaped(old(Value()))
      ensures Value() == LifeCycle.Log(LifeCycle.SetEvents(LifeCycle.SetState(old(Value()), c, Disconnected), c, NONE_EVENT), c, Down)
    {
      SetState(c, Disconnected);
      SetEvents(c, NONE_EVENT);
      Log(c, Down);
    }

    method ConnectDestroyed(c: nat)
      requires Valid() && c < |conns|
      modifies Touched(c)
      ensures Valid() && conns == old(conns)
      ensures Shaped(old(Value())) && Value() == LifeCycle.ConnectDestroyed(old(Value()), c)
    {
      if conns[c].state == Connected {
        GoDown(c);
      }
      Unregister(c);
      Log(c, Destroyed);
    }

    method RemoveConnectionInLoop(c: nat)
      requires Valid() && c < |conns|
      modifies Touched(c)
      ensures Valid() && conns == old(conns)
      ensures Shaped(old(Value())) && Value() == LifeCycle.RemoveConnectionInLoop(old(Value()), c)
    {
      Assert(c in connections);
      connections := connections - {c};
      Queue(conns[c].loop, Destroy(c));
    }

    method RemoveConnection(c: nat)
      requires Valid() && c < |conns|
      modifies Touched(c)
      ensures Valid() && conns == old(conns)
      ensures Shaped(old(Value())) && Value() == LifeCycle.RemoveConnection(old(Value()), c)
    {
      if conns[c].loop == BASE {
        RemoveConnectionInLoop(c);
      } else {
        Queue(BASE, RemoveInLoop(c));
      }
    }

    method HandleClose(c: nat)
      requires Valid() && c < |conns|
      modifies Touched(c)
      ensures Valid() && conns == old(conns)
      ensures Shaped(old(Value())) && Value() == LifeCycle.HandleClose(old(Value()), c)
    {
      Assert(conns[c].state == Connected || conns[c].state == Disconnecting);
      GoDown(c);
      RemoveConnection(c);
    }

    method Shutdown(c: nat)
      requires Valid() && c < |conns|
      modifies Touched(c)
      ensures Valid() && conns == old(conns)
      ensures Value() == LifeCycle.Shutdown(old(Value()), c)
    {
      if conns[c].state == Connected {
        SetState(c, Disconnecting);
      }
    }

    /** The common part of both: the new mask, then the flag. */
    method SetReadInterest(c: nat, events: Mask, on: bool)
      requires Valid() && c < |conns|
      modifies this`ok, conns[c], loops[conns[c].loop]
      ensures Shaped(old(Value())) && c < |LifeCycle.SetEvents(old(Value()), c, events).conns|
      ensures Value() == LifeCycle.SetReading(LifeCycle.SetEvents(old(Value()), c, events), c, on)
    {
      SetEvents(c, events);
      SetReading(c, on);
    }

    method StartRead(c: nat)
      requires Valid() && c < |conns|
      modifies Touched(c)
      ensures Valid() && conns == old(conns)
      ensures Shaped(old(Value())) && Value() == LifeCycle.StartRead(old(Value()), c)
    {
      assert Value().conns[c] == conns[c].Value();
      if !conns[c].reading || !IsReading(conns[c].events) {
        SetReadInterest(c, conns[c].events | READ_EVENT, true);
      }
    }

    method StopRead(c: nat)
      requires Valid() && c < |conns|
      modifies Touched(c)
      ensures Valid() && conns == old(conns)
      ensures Shaped(old(Value())) && Value() == LifeCycle.StopRead(old(Value()), c)
    {
      assert Value().conns[c] == conns[c].Value();
      if conns[c].reading || IsReading(conns[c].events) {
        SetReadInterest(c, conns[c].events & !READ_EVENT, false);
      }
    }

    method SendInLoop(c: nat, sent: Sent)
      requires Valid() && c < |conns|
      modifies Touched(c)
      ensures Valid() && conns == old(conns)
      ensures Shaped(old(Value())) && Value() == LifeCycle.SendInLoop(old(Value()), c, sent)
    {
      var l := conns[c].loop;
      if sent.Refused? {
        Assert(false);
      } else if sent.Whole? && !IsWriting(conns[c].events) {
        Queue(l, WriteComplete(c));
      } else {
        Spill(c, sent.Spilled? && sent.high);
      }
    }

    method Spill(c: nat, high: bool)
      requires Valid() && c < |conns|
      modifies Touched(c)
      ensures Valid() && conns == old(conns)
      ensures Shaped(old(Value()))
      ensures var s := old(Value()); var k := s.conns[c];
        var s1 := if high then Push(s, k.loop, HighWater(c)) else s;
        Value() == if IsWriting(k.chan.events) then s1 else LifeCycle.SetEvents(s1, c, k.chan.events | WRITE_EVENT)
    {
      if high {
        Queue(conns[c].loop, HighWater(c));
      }
      WatchWrites(c);
    }

    method WatchWrites(c: nat)
      requires Valid() && c < |conns|
      modifies Touched(c)
      ensures Valid() && conns == old(conns)
      ensures Shaped(old(Value()))
      ensures var s := old(Value()); var events := s.conns[c].chan.events;
        Value() == if IsWriting(events) then s else LifeCycle.SetEvents(s, c, events | WRITE_EVENT)
    {
      if !IsWriting(conns[c].events) {
        SetEvents(c, conns[c].events | WRITE_EVENT);
      }
    }

    method OnMessage(c: nat, reply: Reply)
      requires Valid() && c < |conns|
      modifies Touched(c)
      ensures Valid() && conns == old(conns)
      ensures Shaped(old(Value())) && Value() == LifeCycle.OnMessage(old(Value()), c, reply)
    {
      if conns[c].state == Connected {
        SendAll(c, reply.sends);
      }
      if reply.shutdown {
        Shutdown(c);
      }
      Log(c, Handled);
    }

    method SendAll(c: nat, sends: seq<Sent>)
      requires Valid() && c < |conns|
      modifies Touched(c)
      ensures Valid() && conns == old(conns)
      ensures Shaped(old(Value())) && Value() == Sends(old(Value()), c, sends)
      decreases |sends|
    {
      if sends != [] {
        SendInLoop(c, sends[0]);
        SendAll(c, sends[1..]);
      }
    }

    method HandleRead(c: nat, n: int, reply: Reply)
      requires Valid() && c < |conns|
      modifies Touched(c)
      ensures Valid() && conns == old(conns)
      ensures Shaped(old(Value())) && Value() == LifeCycle.HandleRead(old(Value()), c, n, reply)
    {
      if n > 0 {
        OnMessage(c, reply);
      } else if n == 0 {
        HandleClose(c);
      }
    }

    method HandleWrite(c: nat, drained: bool)
      requires Valid() && c < |conns|
      modifies Touched(c)
      ensures Valid() && conns == old(conns)
      ensures Shaped(old(Value())) && Value() == LifeCycle.HandleWrite(old(Value()), c, drained)
    {
      if IsWriting(conns[c].events) {
        if drained {
          SetEvents(c, conns[c].events & !WRITE_EVENT);
          Queue(conns[c].loop, WriteComplete(c));
        }
        Log(c, Handled);
      }
    }

    method HandleEvent(c: nat, ev: Revents, n: int, reply: Reply, drained: bool)
      requires Valid() && c < |conns|
      modifies Touched(c)
      ensures Valid() && conns == old(conns)
      ensures Shaped(old(Value())) && Value() == LifeCycle.HandleEvent(old(Value()), c, ev, n, reply, drained)
    {
      if ev.hup && !ev.input {
        HandleClose(c);
      }
      if ev.input || ev.pri || ev.rdhup {
        HandleRead(c, n, reply);
      }
      if ev.output {
        HandleWrite(c, drained);
      }
    }

    method Enlist(fd: int, l: nat)
      requires Valid() && l < |loops|
      modifies this`conns, this`connections
      ensures Valid() && |conns| == |old(conns)| + 1
      ensures conns[..|conns| - 1] == old(conns) && fresh(conns[|conns| - 1]) && conns[|conns| - 1].loop == l
      ensures Value() == old(Value()).(conns := old(Value()).conns + [Conn(l, Chan(fd, NONE_EVENT, New), Connecting, false, [])],
                                       registry := old(connections) + {|old(conns)|})
    {
      var conn := new Connection(l, fd);
      connections := connections + {|conns|};
      conns := conns + [conn];
      assert ConnValues(conns) == old(ConnValues(conns)) + [conn.Value()];
    }

    /** `l` is the loop the thread pool chooses; the connection is numbered next. */
    method NewConnection(fd: int, l: nat)
      requires Valid() && l < |loops|
      modifies this, loops[l], loops[BASE]
      ensures Valid() && |conns| == |old(conns)| + 1
      ensures conns[..|conns| - 1] == old(conns) && fresh(conns[|conns| - 1])
      ensures Shaped(old(Value())) && Value() == LifeCycle.NewConnection(old(Value()), fd, l)
    {
      var c := |conns|;
      Enlist(fd, l);
      if l == BASE {
        ConnectEstablished(c);
      } else {
        Queue(l, Establish(c));
      }
    }

    method RunTask(t: Task)
      requires Valid() && t.c < |conns|
      modifies Touched(t.c)
      ensures Valid() && conns == old(conns)
      ensures Shaped(old(Value())) && Value() == LifeCycle.RunTask(old(Value()), t)
    {
      match t {
        case Establish(c) => ConnectEstablished(c);
        case RemoveInLoop(c) => RemoveConnectionInLoop(c);
        case Destroy(c) => ConnectDestroyed(c);
        case WriteComplete(c) =>
          StartRead(c);
          Log(c, Handled);
        case HighWater(c) =>
          StopRead(c);
          Log(c, Handled);
      }
    }
  }
}
