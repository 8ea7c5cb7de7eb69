/**
 TcpConnection's output path in place: state, interest mask and output buffer.

 Each method does to the connection what ConnectionSpec says, as long as `ok`:
 every assertion of the source on the path holds.  What the kernel answers to a
 send is an argument.
 */
module TcpConnections {
  import opened PollerSpec
  import opened Buffers
  import opened ConnectionState
  import opened ConnectionSpec

  class TcpConnection {
    var state: State
    var reading: bool
    var events: Mask
    const outputBuffer: Buffer
    var highWaterMark: nat
    var hasHighWaterMark: bool
    var hasWriteComplete: bool
    var pending: seq<Functor>        // what this connection queued on its loop
    ghost var accepted: seq<byte>    // what send took
    var wire: seq<byte>              // what the socket was given
    var fins: seq<nat>               // where the socket was half-closed
    ghost var asked: bool

    constructor (highWaterMark: nat, hasHighWaterMark: bool, hasWriteComplete: bool)
      ensures Valid() && fresh(outputBuffer) && fresh(outputBuffer.data)
      ensures Value() == Established(highWaterMark, hasHighWaterMark, hasWriteComplete)
    {
      state, reading, events := Connected, false, NONE_EVENT | READ_EVENT;
      outputBuffer := new Buffer(INITIAL_SIZE);
      this.highWaterMark := highWaterMark;
      this.hasHighWaterMark, this.hasWriteComplete := hasHighWaterMark, hasWriteComplete;
      pending, accepted, wire, fins, asked := [], [], [], [], false;
      new;
      InterestUpdates(NONE_EVENT);
    }

    ghost predicate Valid()
      reads this, outputBuffer
    {
      && outputBuffer.Valid()
      && (outputBuffer.Readable() == 0 ==> outputBuffer.readIndex == CHEAP_PREPEND)
    }

    ghost function Value(): Conn
      reads this, outputBuffer, outputBuffer.data
      requires Valid()
    {
      Conn(state, reading, InterestOf(events), outputBuffer.Contents(),
           Space(outputBuffer.data.Length, outputBuffer.readIndex, false), highWaterMark, hasHighWaterMark,
           hasWriteComplete, pending, accepted, wire, fins, asked)
    }

    /** Succeeds exactly when every assertion on the path holds: a direct send does not
        fail, and what is left fits the output buffer without moving bytes. */
    method Send(message: seq<byte>, n: int) returns (ok: bool)
      requires Valid() && n <= |message|
      modifies this, outputBuffer, outputBuffer.data
      ensures outputBuffer.data == old(outputBuffer.data) || fresh(outputBuffer.data)
      ensures ok == old(state == Connected ==> SendOk(Value(), message, n))
      ensures ok ==> Valid() && Value() == ConnectionSpec.Send(old(Value()), message, n)
    {
      ok := true;
      if state == Connected {
        accepted := accepted + message;
        ok := SendInLoop(message, n);
      }
    }

    method EnableWriting()
      modifies this`events
      ensures InterestOf(events) == InterestOf(old(events)).(write := true)
    {
      InterestUpdates(events);
      events := events | WRITE_EVENT;
    }

    method DisableWriting()
      modifies this`events
      ensures InterestOf(events) == InterestOf(old(events)).(write := false)
    {
      InterestUpdates(events);
      events := events & !WRITE_EVENT;
    }

    method SendInLoop(message: seq<byte>, n: int) returns (ok: bool)
      requires Valid() && n <= |message|
      modifies this`wire, this`pending, this`events, outputBuffer, outputBuffer.data
      ensures outputBuffer.data == old(outputBuffer.data) || fresh(outputBuffer.data)
      ensures ok == SendOk(old(Value()), message, n)
      ensures ok ==> Valid() && Value() == ConnectionSpec.SendInLoop(old(Value()), message, n)
    {
      ok := true;
      if state == Disconnected {
        return;
      }
      var nwrote := 0;
      if !IsWriting(events) && outputBuffer.Readable() == 0 {
        // `nwrote` is unsigned in the source: an error would make what remains larger than the message.
        if n < 0 {
          return false;
        }
        nwrote := n;
        SendDirectly(message, nwrote);
      }
      ghost var taken := Taken(old(Value()), message, nwrote);
      assert Value() == taken by {
        assert wire == old(wire) + message[..nwrote];
      }
      var rest := message[nwrote..];
      if |rest| > 0 {
        ok := Spill(rest);
      }
    }

    /** A connection whose socket took the first `k` bytes of a message. */
    static function Taken(c: Conn, message: seq<byte>, k: nat): Conn
      requires k <= |message|
    {
      Queue(c.(wire := c.wire + message[..k]), OnWriteComplete, Direct(c) && k == |message| && c.hasWriteComplete)
    }

    /** The socket takes the first `nwrote` bytes. */
    method SendDirectly(message: seq<byte>, nwrote: nat)
      requires Valid() && Direct(Value()) && nwrote <= |message|
      modifies this`wire, this`pending
      ensures Valid() && Value() == Taken(old(Value()), message, nwrote)
    {
      wire := wire + message[..nwrote];
      if nwrote == |message| && hasWriteComplete {
        pending := pending + [OnWriteComplete];
      }
    }

    method Spill(rest: seq<byte>) returns (ok: bool)
      requires Valid() && rest != []
      modifies this`pending, this`events, outputBuffer, outputBuffer.data
      ensures outputBuffer.data == old(outputBuffer.data) || fresh(outputBuffer.data)
      ensures ok == Room(old(Value()), |rest|)
      ensures ok ==> Valid() && Value() == ConnectionSpec.Spill(old(Value()), rest)
    {
      NoticeHighWater(|rest|);
      ok := AppendRest(rest);
      if ok {
        WriteOn();
      }
    }

    method AppendRest(rest: seq<byte>) returns (ok: bool)
      requires Valid() && rest != []
      modifies outputBuffer, outputBuffer.data
      ensures outputBuffer.data == old(outputBuffer.data) || fresh(outputBuffer.data)
      ensures ok == Room(old(Value()), |rest|)
      ensures ok ==> Valid() && var c := old(Value());
        Value() == c.(out := c.out + rest, space := Widened(c.space, |c.out|, |rest|))
    {
      ok := outputBuffer.Append(rest);
    }

    method WriteOn()
      requires Valid()
      modifies this`events
      ensures Valid() && Value() == old(Value()).(events := old(Value()).events.(write := true))
    {
      if !IsWriting(events) {
        EnableWriting();
      }
    }

    method NoticeHighWater(remaining: nat)
      requires Valid()
      modifies this`pending
      ensures Valid()
      ensures var c := old(Value()); var oldlen := |c.out|;
        Value() == Queue(c, OnHighWater(oldlen + remaining),
                         oldlen + remaining > c.mark && oldlen < c.mark && c.hasHigh)
    {
      var oldlen := outputBuffer.Readable();
      if oldlen + remaining > highWaterMark && oldlen < highWaterMark && hasHighWaterMark {
        pending := pending + [OnHighWater(oldlen + remaining)];
      }
    }

    method HandleWrite(n: int)
      requires Valid() && n <= outputBuffer.Readable()
      modifies this`wire, this`pending, this`events, this`fins, outputBuffer`readIndex, outputBuffer`writeIndex
      ensures Valid() && Value() == ConnectionSpec.HandleWrite(old(Value()), n)
    {
      if IsWriting(events) && n > 0 {
        var ok, bytes := outputBuffer.RetrieveAsString(n);
        wire := wire + bytes;
        if outputBuffer.Readable() == 0 {
          DisableWriting();
          if hasWriteComplete {
            pending := pending + [OnWriteComplete];
          }
          if state == Disconnecting {
            ShutdownInLoop();
          }
        }
      }
    }

    method ShutdownInLoop()
      requires Valid()
      modifies this`fins
      ensures Valid() && Value() == ConnectionSpec.ShutdownInLoop(old(Value()))
    {
      if !IsWriting(events) {
        fins := fins + [|wire|];
      }
    }

    method Shutdown()
      requires Valid()
      modifies this`state, this`fins, this`asked
      ensures Valid() && Value() == ConnectionSpec.Shutdown(old(Value()))
    {
      if state == Connected {
        state := Disconnecting;
        asked := true;
        ShutdownInLoop();
      }
    }

    method ForceClose()
      requires Valid()
      modifies this`state, this`pending
      ensures Valid() && Value() == ConnectionSpec.ForceClose(old(Value()))
    {
      if state == Disconnecting || state == Connected {
        state := Disconnecting;
        pending := pending + [ForceCloseInLoop];
      }
    }

    method HandleClose() returns (ok: bool)
      requires Valid()
      modifies this`state, this`events
      ensures ok == Open(old(Value()))
      ensures Valid() && Value() == ConnectionSpec.HandleClose(old(Value()))
    {
      ok := state == Connected || state == Disconnecting;
      state := Disconnected;
      events := NONE_EVENT;
      InterestUpdates(NONE_EVENT);
    }

    method StartReadInLoop()
      requires Valid()
      modifies this`events, this`reading
      ensures Valid() && Value() == ConnectionSpec.StartRead(old(Value()))
    {
      InterestUpdates(events);
      if !reading || !IsReading(events) {
        events := events | READ_EVENT;
        reading := true;
      }
    }

    method StopReadInLoop()
      requires Valid()
      modifies this`events, this`reading
      ensures Valid() && Value() == ConnectionSpec.StopRead(old(Value()))
    {
      InterestUpdates(events);
      if reading || IsReading(events) {
        events := events & !READ_EVENT;
        reading := false;
      }
    }

    /** The loop runs the oldest functor this connection queued. */
    method RunPending()
      requires Valid() && pending != []
      modifies this`pending, this`events, this`reading, this`state
      ensures Valid() && Value() == RunFunctor(old(Value()))
    {
      var f := pending[0];
      pending := pending[1..];
      match f {
        case OnWriteComplete => StartReadInLoop();
        case OnHighWater(_) => StopReadInLoop();
        case ForceCloseInLoop =>
          if state == Disconnecting || state == Connected {
            var ok := HandleClose();
          }
      }
    }

    /** One step of the loop thread, or of the kernel. */
    method RunOp(op: Op) returns (ok: bool)
      requires Valid() && Possible(Value(), op)
      modifies this, outputBuffer, outputBuffer.data
      ensures outputBuffer.data == old(outputBuffer.data) || fresh(outputBuffer.data)
      ensures ok == AssertsHold(old(Value()), op)
      ensures ok ==> Valid() && Value() == ConnectionSpec.Apply(old(Value()), op)
    {
      ok := true;
      match op {
        case DoSend(message, n) => ok := Send(message, n);
        case Writable(n) => HandleWrite(n);
        case DoShutdown => Shutdown();
        case DoForceClose => ForceClose();
        case PeerClosed => ok := HandleClose();
        case RunNext => RunPending();
      }
    }

    /** A whole run in place: it gets to its end exactly when the specification's does. */
    method RunOps(ops: seq<Op>) returns (ok: bool)
      requires Valid() && ConnectionSpec.Run(Value(), ops) != Impossible
      modifies this, outputBuffer, outputBuffer.data
      ensures outputBuffer.data == old(outputBuffer.data) || fresh(outputBuffer.data)
      ensures ok <==> ConnectionSpec.Run(old(Value()), ops).Reached?
      ensures ok ==> Valid() && Value() == ConnectionSpec.Run(old(Value()), ops).c
      decreases |ops|
    {
      ok := true;
      if ops != [] {
        ok := RunOp(ops[0]);
        if ok {
          ok := RunOps(ops[1..]);
        }
      }
    }
  }
}
