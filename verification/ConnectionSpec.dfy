/**
 The output path of a connection: sending with spill into a buffer, write
 interest, half-close, and the read flow control driven by the high-water and
 write-complete callbacks.  One connection in its loop thread, as a function of
 what the kernel accepts and of which callbacks run.
 */
module ConnectionSpec {
  import opened PollerSpec
  import opened Buffers
  import opened ConnectionState

  // Functors queued on the loop by this connection.
  datatype Functor = OnWriteComplete | OnHighWater(len: nat) | ForceCloseInLoop

  /** The array of the output buffer and where its readable bytes begin; `compacts`: moving
      bytes to make space does what it is meant to, which in the code it does not. */
  datatype Space = Space(size: nat, readIndex: nat, compacts: bool)

  /** `len` bytes can be put behind `used` readable ones without a failed assertion. */
  predicate HasRoom(b: Space, used: nat, len: nat) {
    b.compacts || GrowsInPlace(b.size, b.readIndex, b.readIndex + used, len)
  }

  function Widened(b: Space, used: nat, len: nat): Space {
    b.(readIndex := IntendedRead(b.size, b.readIndex, b.readIndex + used, len),
       size := IntendedSize(b.size, b.readIndex, b.readIndex + used, len))
  }

  /** `out` are the readable bytes of the output buffer, `space` is their place; `mark` is the high-water mark, the two flags say which
      callbacks are set.  Outside the source's fields: `accepted` is what send took,
      `wire` what the socket was given, `fins` the lengths of `wire` at each half-close,
      `asked` whether shutdown was called while connected. */
  datatype Conn = Conn(
    state: State, reading: bool, events: Interest, out: seq<byte>, space: Space,
    mark: nat, hasHigh: bool, hasWriteComplete: bool,
    queue: seq<Functor>, accepted: seq<byte>, wire: seq<byte>, fins: seq<nat>, asked: bool)

  predicate Open(c: Conn) { c.state in {Connected, Disconnecting} }

  /** A connection just established. */
  function Established(mark: nat, hasHigh: bool, hasWriteComplete: bool): Conn {
    Conn(Connected, false, Interest(true, false), [], Space(CHEAP_PREPEND + INITIAL_SIZE, CHEAP_PREPEND, false),
         mark, hasHigh, hasWriteComplete, [], [], [], [], false)
  }

  /** The same with an output buffer that compacts as it is meant to. */
  function Intended(mark: nat, hasHigh: bool, hasWriteComplete: bool): Conn {
    Established(mark, hasHigh, hasWriteComplete).(space := Space(CHEAP_PREPEND + INITIAL_SIZE, CHEAP_PREPEND, true))
  }

  // ------------------------------------------------------------------ operations

  /** A send goes to the socket directly only when nothing waits in the buffer. */
  predicate Direct(c: Conn) { !c.events.write && c.out == [] }

  /** What of a message the socket takes at once, when the kernel answers `n`. */
  function Written(c: Conn, message: seq<byte>, n: int): nat
    requires n <= |message|
  {
    if Direct(c) && n >= 0 then n else 0
  }

  /** Appending this many bytes to the output buffer keeps its assertions: no compaction. */
  predicate Room(c: Conn, len: nat) {
    HasRoom(c.space, |c.out|, len)
  }

  /** The assertions on the path of a send hold: a direct send does not fail, and what is
      left of the message finds room. */
  predicate SendOk(c: Conn, message: seq<byte>, n: int)
    requires n <= |message|
  {
    var k := Written(c, message, n);
    c.state == Disconnected || ((Direct(c) ==> n >= 0) && (k == |message| || Room(c, |message| - k)))
  }

  function Queue(c: Conn, f: Functor, wanted: bool): Conn {
    if wanted then c.(queue := c.queue + [f]) else c
  }

  function SendInLoop(c: Conn, message: seq<byte>, n: int): Conn
    requires n <= |message| && SendOk(c, message, n)
  {
    if c.state == Disconnected then c
    else
      var k := Written(c, message, n);
      var c1 := Queue(c.(wire := c.wire + message[..k]), OnWriteComplete,
                      Direct(c) && k == |message| && c.hasWriteComplete);
      if k == |message| then c1 else Spill(c1, message[k..])
  }

  /** The rest of a message goes into the output buffer, and write interest on. */
  function Spill(c: Conn, rest: seq<byte>): Conn
    requires Room(c, |rest|)
  {
    var oldlen := |c.out|;
    var c1 := Queue(c, OnHighWater(oldlen + |rest|),
                    oldlen + |rest| > c.mark && oldlen < c.mark && c.hasHigh);
    c1.(out := c.out + rest, space := Widened(c.space, oldlen, |rest|), events := c.events.(write := true))
  }

  function Send(c: Conn, message: seq<byte>, n: int): Conn
    requires n <= |message| && (c.state == Connected ==> SendOk(c, message, n))
  {
    if c.state == Connected then SendInLoop(c.(accepted := c.accepted + message), message, n) else c
  }

  function ShutdownInLoop(c: Conn): Conn {
    if c.events.write then c else c.(fins := c.fins + [|c.wire|])
  }

  function HandleWrite(c: Conn, n: int): Conn
    requires n <= |c.out|
  {
    if !c.events.write || n <= 0 then c
    else
      var c1 := c.(wire := c.wire + c.out[..n], out := c.out[n..],
                   space := c.space.(readIndex := if n < |c.out| then c.space.readIndex + n else CHEAP_PREPEND));
      if c1.out != [] then c1
      else
        var c2 := Queue(c1.(events := c1.events.(write := false)), OnWriteComplete, c.hasWriteComplete);
        if c.state == Disconnecting then ShutdownInLoop(c2) else c2
  }

  function Shutdown(c: Conn): Conn {
    if c.state == Connected then ShutdownInLoop(c.(state := Disconnecting, asked := true)) else c
  }

  function ForceClose(c: Conn): Conn {
    if Open(c) then c.(state := Disconnecting, queue := c.queue + [ForceCloseInLoop]) else c
  }

  function HandleClose(c: Conn): Conn {
    c.(state := Disconnected, events := Interest(false, false))
  }

  function StartRead(c: Conn): Conn {
    if !c.reading || !c.events.read then c.(events := c.events.(read := true), reading := true) else c
  }

  function StopRead(c: Conn): Conn {
    if c.reading || c.events.read then c.(events := c.events.(read := false), reading := false) else c
  }

  /** The oldest queued functor runs: HttpServer's callbacks stop and start reading. */
  function RunFunctor(c: Conn): Conn
    requires c.queue != []
  {
    var d := c.(queue := c.queue[1..]);
    match c.queue[0]
    case OnWriteComplete => StartRead(d)
    case OnHighWater(_) => StopRead(d)
    case ForceCloseInLoop => if Open(d) then HandleClose(d) else d
  }

  // ------------------------------------------------------------------------ runs

  /** `n` is what the kernel answers to the send of that step, if one is made. */
  datatype Op = DoSend(message: seq<byte>, n: int) | Writable(n: int) | DoShutdown | DoForceClose | PeerClosed | RunNext

  /** The kernel takes no more than offered, and the loop runs what is queued. */
  predicate Possible(c: Conn, op: Op) {
    match op
    case DoSend(message, n) => n <= |message|
    case Writable(n) => n <= |c.out|
    case RunNext => c.queue != []
    case _ => true
  }

  /** Every assertion on the path of the step holds. */
  predicate AssertsHold(c: Conn, op: Op)
    requires Possible(c, op)
  {
    match op
    case DoSend(message, n) => c.state == Connected ==> SendOk(c, message, n)
    case PeerClosed => Open(c)
    case _ => true
  }

  predicate OpOk(c: Conn, op: Op) { Possible(c, op) && AssertsHold(c, op) }

  function Apply(c: Conn, op: Op): Conn
    requires OpOk(c, op)
  {
    match op
    case DoSend(message, n) => Send(c, message, n)
    case Writable(n) => HandleWrite(c, n)
    case DoShutdown => Shutdown(c)
    case DoForceClose => ForceClose(c)
    case PeerClosed => HandleClose(c)
    case RunNext => RunFunctor(c)
  }

  /** Where a list of steps leads: to a state, to an assertion that fails, or to a step
      that cannot be taken. */
  datatype Result = Reached(c: Conn) | Failed | Impossible

  function Run(c: Conn, ops: seq<Op>): Result
    decreases |ops|
  {
    if ops == [] then Reached(c)
    else if !Possible(c, ops[0]) then Impossible
    else if AssertsHold(c, ops[0]) then Run(Apply(c, ops[0]), ops[1..])
    else Failed
  }

  // ------------------------------------------------------------------ properties

  /** Nothing is lost, repeated or reordered. */
  predicate StreamOk(c: Conn) { c.wire + c.out == c.accepted }

  predicate WriteInterestOk(c: Conn) {
    if Open(c) then c.events.write <==> c.out != [] else !c.events.write
  }

  /** Half-closed at most once, with every accepted byte on the wire and none after; a
      connection asked to shut down is half-closed as soon as its buffer is empty. */
  predicate HalfCloseOk(c: Conn) {
    && |c.fins| <= 1
    && (c.fins != [] ==> c.state != Connected && c.fins[0] == |c.wire| && c.wire == c.accepted)
    && (Open(c) && c.asked ==> (c.fins != [] <==> c.out == []))
    && (c.asked ==> c.state != Connected)
  }

  /** Reading is never off for good: output is still to be written, or a callback that
      turns reading on again is waiting. */
  predicate FlowOk(c: Conn) {
    Open(c) && !c.events.read ==> (c.out != [] && c.events.write) || OnWriteComplete in c.queue
  }

  /** Each waiting high-water callback has output to be written, or a write-complete behind it. */
  predicate HighWatersAnswered(q: seq<Functor>, pendingOutput: bool)
  {
    pendingOutput || forall i :: 0 <= i < |q| && q[i].OnHighWater? ==> OnWriteComplete in q[i + 1..]
  }

  /** The indices of the output buffer; it is at its start when it is empty. */
  predicate BufferOk(c: Conn) {
    && CHEAP_PREPEND <= c.space.readIndex && c.space.readIndex + |c.out| <= c.space.size
    && (c.out == [] ==> c.space.readIndex == CHEAP_PREPEND)
  }

  predicate Inv(c: Conn) {
    && StreamOk(c) && WriteInterestOk(c) && HalfCloseOk(c) && BufferOk(c)
    && c.state in {Connected, Disconnecting, Disconnected}
  }

  predicate FlowInv(c: Conn) {
    Open(c) ==>
      if c.hasWriteComplete then FlowOk(c) && HighWatersAnswered(c.queue, c.out != [])
      else c.events.read && forall f <- c.queue :: !f.OnHighWater?
  }

  /** Where the bytes of a message go, as long as no assertion fails. */
  lemma SendSplits(c: Conn, message: seq<byte>, n: int)
    requires c.state == Connected && n <= |message| && SendOk(c, message, n)
    ensures var r := Send(c, message, n); var k := Written(c, message, n);
      r.wire == c.wire + message[..k] && r.out == c.out + message[k..] && r.accepted == c.accepted + message
  {
  }

  /** Bytes written past an empty buffer, or all put behind it, keep the stream. */
  lemma Joined(w: seq<byte>, o: seq<byte>, message: seq<byte>, k: nat)
    requires k <= |message| && (o == [] || k == 0)
    ensures (w + message[..k]) + (o + message[k..]) == (w + o) + message
  {
    assert message[..k] + message[k..] == message;
  }

  lemma SendStream(c: Conn, message: seq<byte>, n: int)
    requires StreamOk(c) && OpOk(c, DoSend(message, n))
    ensures StreamOk(Send(c, message, n))
  {
    if c.state == Connected {
      SendSplits(c, message, n);
      Joined(c.wire, c.out, message, Written(c, message, n));
    }
  }

  lemma SendKeeps(c: Conn, message: seq<byte>, n: int)
    requires Inv(c) && OpOk(c, DoSend(message, n))
    ensures Inv(Send(c, message, n))
  {
    SendStream(c, message, n);
    var r := Send(c, message, n);
    assert r.fins == c.fins && r.state == c.state && r.asked == c.asked;
  }

  /** In a reachable state a send breaks an assertion exactly when it goes straight to the
      socket and fails there, or when the output buffer has too little space behind its
      bytes but enough together with the space in front, so that it compacts. */
  lemma SendFailsExactly(c: Conn, message: seq<byte>, n: int)
    requires Inv(c) && c.state == Connected && n <= |message|
    ensures var free := c.space.size - c.space.readIndex - |c.out|;
      !AssertsHold(c, DoSend(message, n)) <==>
        if c.out == [] then n < 0 else !c.space.compacts && free < |message| && |message| + CHEAP_PREPEND <= free + c.space.readIndex
  {
    assert Direct(c) <==> c.out == [];
  }

  /** What of a message goes where and what is queued for it: with nothing waiting, the socket
      takes the first `n` bytes and the rest is buffered; else all of it is buffered.  Write
      interest follows the buffer; the high-water callback is queued exactly when the buffer is
      lifted from below the mark to above it, the write-complete callback exactly when the
      socket took all. */
  lemma SendExactly(c: Conn, message: seq<byte>, n: int)
    requires Inv(c) && c.state == Connected && OpOk(c, DoSend(message, n))
    ensures var r := Apply(c, DoSend(message, n));
      && (c.out == [] ==> 0 <= n && r.wire == c.wire + message[..n] && r.out == message[n..])
      && (c.out != [] ==> r.wire == c.wire && r.out == c.out + message)
      && r.state == Connected && r.fins == [] && r.reading == c.reading
      && r.events == c.events.(write := r.out != [])
      && r.queue == c.queue +
           (if c.hasHigh && |c.out| < c.mark < |r.out| then [OnHighWater(|r.out|)]
            else if c.hasWriteComplete && c.out == [] && n == |message| then [OnWriteComplete] else [])
  {
    SendSplits(c, message, n);
    assert Direct(c) <==> c.out == [];
    assert c.queue + [] == c.queue;
    assert [] + message[if c.out == [] then n else 0..] == message[if c.out == [] then n else 0..];
  }

  lemma ShutdownKeeps(c: Conn)
    requires Inv(c)
    ensures Inv(Shutdown(c))
  {
  }

  /** A shutdown half-closes exactly a connected connection without write interest. */
  lemma HalfClosesExactly(c: Conn)
    ensures Shutdown(c).fins == if c.state == Connected && !c.events.write then c.fins + [|c.wire|] else c.fins
    ensures Shutdown(c).state == if c.state == Connected then Disconnecting else c.state
  {
  }

  /** A shutdown half-closes the socket at once, behind all that was written, when nothing
      waits to be written; else it is left to the drain. */
  lemma ShutdownExactly(c: Conn)
    requires Inv(c) && c.state == Connected
    ensures OpOk(c, DoShutdown)
    ensures var r := Apply(c, DoShutdown);
      && r.state == Disconnecting && r.fins == (if c.out == [] then [|c.wire|] else [])
      && r.wire == c.wire && r.out == c.out && r.queue == c.queue && r.events == c.events
  {
  }

  /** A step that leaves output alone, and at most closes the connection. */
  predicate SameOutput(c: Conn, r: Conn) {
    && r.wire == c.wire && r.out == c.out && r.space == c.space
    && r.accepted == c.accepted && r.fins == c.fins && r.asked == c.asked
    && ((r.state == c.state && r.events.write == c.events.write) || (r.state == Disconnected && !r.events.write))
  }

  lemma SameOutputKeeps(c: Conn, r: Conn)
    requires Inv(c) && SameOutput(c, r)
    ensures Inv(r)
  {
  }

  lemma FunctorSameOutput(c: Conn)
    requires c.queue != []
    ensures SameOutput(c, RunFunctor(c))
  {
  }

  lemma FunctorKeeps(c: Conn)
    requires Inv(c) && c.queue != []
    ensures Inv(RunFunctor(c))
  {
    FunctorSameOutput(c);
    SameOutputKeeps(c, RunFunctor(c));
  }

  lemma WriteKeeps(c: Conn, n: int)
    requires Inv(c) && n <= |c.out|
    ensures Inv(HandleWrite(c, n))
  {
    if n > 0 {
      assert (c.wire + c.out[..n]) + c.out[n..] == c.wire + c.out;
    }
  }

  /** What the socket takes leaves the buffer, from its front.  Taking the last of it turns
      write interest off, queues write-complete, and half-closes a connection that is being
      shut down; taking less, or failing, does none of that. */
  lemma WriteExactly(c: Conn, n: int)
    requires Inv(c) && Open(c) && c.out != [] && n <= |c.out|
    ensures OpOk(c, Writable(n))
    ensures var r := Apply(c, Writable(n)); var drained := n == |c.out|;
      if n <= 0 then r == c else
        && r.wire == c.wire + c.out[..n] && r.out == c.out[n..] && r.state == c.state
        && r.events == c.events.(write := !drained)
        && r.queue == (if drained && c.hasWriteComplete then c.queue + [OnWriteComplete] else c.queue)
        && r.fins == (if drained && c.state == Disconnecting then [|r.wire|] else [])
  {
    assert c.fins == [];
  }

  /** Both the flag and the interest follow, whatever they were, and nothing else changes. */
  lemma ReadSwitched(c: Conn)
    ensures StartRead(c) == c.(reading := true, events := c.events.(read := true))
    ensures StopRead(c) == c.(reading := false, events := c.events.(read := false))
  {
  }

  /** A close: the connection is down and watched for nothing, and its output stays as it is. */
  lemma CloseExactly(c: Conn)
    requires Open(c)
    ensures OpOk(c, PeerClosed)
    ensures Apply(c, PeerClosed) == c.(state := Disconnected, events := Interest(false, false))
  {
  }

  /** The oldest functor is run: write-complete turns reading on, high-water turns it off, and a
      forced close closes a connection that is still open. */
  lemma FunctorExactly(c: Conn)
    requires c.queue != []
    ensures OpOk(c, RunNext)
    ensures var d := c.(queue := c.queue[1..]);
      Apply(c, RunNext) == match c.queue[0]
        case OnWriteComplete => d.(reading := true, events := c.events.(read := true))
        case OnHighWater(_) => d.(reading := false, events := c.events.(read := false))
        case ForceCloseInLoop => if Open(c) then d.(state := Disconnected, events := Interest(false, false)) else d
  {
    ReadSwitched(c.(queue := c.queue[1..]));
  }

  function Nexts(k: nat): (ops: seq<Op>)
    ensures |ops| == k
  {
    if k == 0 then [] else [RunNext] + Nexts(k - 1)
  }

  lemma {:induction false} ClosedInTurn(c: Conn, i: nat)
    requires c.state != Connecting && i < |c.queue| && c.queue[i] == ForceCloseInLoop
    ensures var r := Run(c, Nexts(i + 1)); r.Reached? && r.c.state == Disconnected
    decreases i
  {
    FunctorPops(c);
    NextRuns(c, i);
    if i > 0 {
      ClosedInTurn(RunFunctor(c), i - 1);
    }
  }

  lemma FunctorPops(c: Conn)
    requires c.state != Connecting && c.queue != []
    ensures var r := RunFunctor(c);
      r.queue == c.queue[1..] && r.state != Connecting && (c.queue[0] == ForceCloseInLoop ==> r.state == Disconnected)
  {
  }

  lemma NextRuns(c: Conn, i: nat)
    requires c.queue != []
    ensures Run(c, Nexts(i + 1)) == Run(RunFunctor(c), Nexts(i))
  {
    assert Nexts(i + 1)[1..] == Nexts(i) && Nexts(i + 1)[0] == RunNext;
  }

  /** forceClose closes: once the loop has run what is queued, the connection is down. */
  lemma ForceCloseCloses(c: Conn)
    requires Open(c)
    ensures var r := Run(c, [DoForceClose] + Nexts(|c.queue| + 1)); r.Reached? && r.c.state == Disconnected
    ensures ForceClose(c).state == Disconnecting
  {
    var ops := [DoForceClose] + Nexts(|c.queue| + 1);
    assert ops[1..] == Nexts(|c.queue| + 1);
    ClosedInTurn(ForceClose(c), |c.queue|);
  }

  lemma StepKeeps(c: Conn, op: Op)
    requires Inv(c) && OpOk(c, op)
    ensures Inv(Apply(c, op))
  {
    match op
    case DoSend(message, n) => SendKeeps(c, message, n);
    case Writable(n) => WriteKeeps(c, n);
    case DoShutdown => ShutdownKeeps(c);
    case RunNext => FunctorKeeps(c);
    case DoForceClose =>
    case PeerClosed =>
  }

  lemma {:induction false} RunKeeps(c: Conn, ops: seq<Op>)
    requires Inv(c)
    ensures Run(c, ops).Reached? ==> Inv(Run(c, ops).c)
    decreases |ops|
  {
    if ops != [] && OpOk(c, ops[0]) {
      StepKeeps(c, ops[0]);
      RunKeeps(Apply(c, ops[0]), ops[1..]);
    }
  }

  /** Output-stream refinement and graceful half-close, in every state of every run. */
  lemma OutputStream(mark: nat, hasHigh: bool, hasWriteComplete: bool, ops: seq<Op>)
    ensures var r := Run(Established(mark, hasHigh, hasWriteComplete), ops);
      r.Reached? ==> StreamOk(r.c) && WriteInterestOk(r.c) && HalfCloseOk(r.c)
  {
    RunKeeps(Established(mark, hasHigh, hasWriteComplete), ops);
  }

  /** With compaction as it is meant to be, only two things fail: a direct send that reports
      an error, and the peer closing a connection that is down. */
  predicate FailsAsMeant(c: Conn, op: Op) {
    match op
    case DoSend(_, n) => c.state == Connected && c.out == [] && n < 0
    case PeerClosed => !Open(c)
    case _ => false
  }

  lemma SendCompacts(c: Conn, message: seq<byte>, n: int)
    requires OpOk(c, DoSend(message, n))
    ensures Send(c, message, n).space.compacts == c.space.compacts
  {
  }

  lemma StepCompacts(c: Conn, op: Op)
    requires OpOk(c, op)
    ensures Apply(c, op).space.compacts == c.space.compacts
  {
    match op
    case DoSend(message, n) => SendCompacts(c, message, n);
    case RunNext => FunctorSameOutput(c);
    case _ =>
  }

  lemma {:induction false} RunCompacts(c: Conn, ops: seq<Op>)
    ensures Run(c, ops).Reached? ==> Run(c, ops).c.space.compacts == c.space.compacts
    decreases |ops|
  {
    if ops != [] && OpOk(c, ops[0]) {
      StepCompacts(c, ops[0]);
      RunCompacts(Apply(c, ops[0]), ops[1..]);
    }
  }

  /** Then the output stream is right without a word about the size of messages: in every
      state of every run, and each run goes on from there unless one of the two happens. */
  lemma IntendedStream(mark: nat, hasHigh: bool, hasWriteComplete: bool, ops: seq<Op>)
    ensures var r := Run(Intended(mark, hasHigh, hasWriteComplete), ops);
      r.Reached? ==>
        && StreamOk(r.c) && WriteInterestOk(r.c) && HalfCloseOk(r.c)
        && forall op :: Possible(r.c, op) ==> (AssertsHold(r.c, op) <==> !FailsAsMeant(r.c, op))
  {
    RunKeeps(Intended(mark, hasHigh, hasWriteComplete), ops);
    RunCompacts(Intended(mark, hasHigh, hasWriteComplete), ops);
  }

  /** The first bytes put into the buffer of a fresh connection fit its 1024 bytes, behind 8 in
      reserve, or widen it to just what is needed. */
  lemma FirstBuffered(mark: nat, hasHigh: bool, hasWriteComplete: bool, message: seq<byte>)
    ensures var r := Run(Established(mark, hasHigh, hasWriteComplete), [DoSend(message, 0)]);
      r.Reached? && r.c.out == message && r.c.space == Space(if |message| <= 1024 then 1032 else 8 + |message|, 8, false)
  {
    var c := Established(mark, hasHigh, hasWriteComplete);
    assert [DoSend(message, 0)][1..] == [];
    SendExactly(c, message, 0);
    assert Run(c, [DoSend(message, 0)]) == Run(Send(c, message, 0), []);
  }

  function Zeros(k: nat): (r: seq<byte>)
    ensures |r| == k
  {
    seq(k, _ => 0)
  }

  /** A run in which the buffer compacts: 3000 bytes wait, 2000 of them leave, 500 more come.
      From there on the source is not defined to do what it promises. */
  lemma CompactionFails(mark: nat)
    ensures Run(Established(mark, true, true), [DoSend(Zeros(3000), 0), Writable(2000), DoSend(Zeros(500), 0)]).Failed?
  {
    var c0 := Established(mark, true, true);
    var ops := [DoSend(Zeros(3000), 0), Writable(2000), DoSend(Zeros(500), 0)];
    var c1 := Send(c0, Zeros(3000), 0);
    assert c1.space == Space(3008, 8, false) && |c1.out| == 3000;
    var c2 := HandleWrite(c1, 2000);
    assert c2.space == Space(3008, 2008, false) && |c2.out| == 1000;
    assert ops[1..] == [Writable(2000), DoSend(Zeros(500), 0)] && ops[1..][1..] == [DoSend(Zeros(500), 0)];
    assert Run(c0, ops) == Run(c1, ops[1..]);
    assert Run(c1, ops[1..]) == Run(c2, [DoSend(Zeros(500), 0)]);
  }

  // ------------------------------------------------- replies, then the half-close

  predicate AllSends(ops: seq<Op>) { forall op <- ops :: op.DoSend? }

  /** The messages of a list of sends, end to end. */
  function Messages(ops: seq<Op>): seq<byte>
    requires AllSends(ops)
  {
    if ops == [] then [] else ops[0].message + Messages(ops[1..])
  }

  lemma {:induction false} RunAppend(c: Conn, first: seq<Op>, second: seq<Op>)
    ensures Run(c, first + second) == match Run(c, first) case Reached(d) => Run(d, second) case o => o
    decreases |first|
  {
    if first == [] {
      assert first + second == second;
    } else {
      assert (first + second)[1..] == first[1..] + second;
      if OpOk(c, first[0]) {
        RunAppend(Apply(c, first[0]), first[1..], second);
      }
    }
  }

  lemma {:induction false} SendsAccepted(c: Conn, replies: seq<Op>)
    requires c.state == Connected && AllSends(replies)
    ensures var r := Run(c, replies);
      r.Reached? ==> r.c.state == Connected && r.c.accepted == c.accepted + Messages(replies)
    decreases |replies|
  {
    if replies == [] {
      assert c.accepted + [] == c.accepted;
    } else if OpOk(c, replies[0]) {
      var op := replies[0];
      AllSendsTail(replies);
      SendAccepted(c, op);
      SendsAccepted(Apply(c, op), replies[1..]);
      Regroup(c.accepted, op.message, Messages(replies[1..]));
    }
  }

  lemma AllSendsTail(ops: seq<Op>)
    requires AllSends(ops) && ops != []
    ensures ops[0].DoSend? && AllSends(ops[1..])
  {
    assert ops[0] in ops && forall op <- ops[1..] :: op in ops;
  }

  lemma SendAccepted(c: Conn, op: Op)
    requires c.state == Connected && op.DoSend? && OpOk(c, op)
    ensures Apply(c, op).state == Connected && Apply(c, op).accepted == c.accepted + op.message
  {
  }

  lemma Regroup(a: seq<byte>, b: seq<byte>, c: seq<byte>)
    ensures (a + b) + c == a + (b + c)
  {
  }

  lemma StepAsked(c: Conn, op: Op)
    requires c.state != Connected && OpOk(c, op)
    ensures var r := Apply(c, op); r.state != Connected && r.accepted == c.accepted && r.asked == c.asked
  {
    match op
    case Writable(n) => WriteAsked(c, n);
    case RunNext => FunctorSameOutput(c);
    case _ =>
  }

  lemma WriteAsked(c: Conn, n: int)
    requires n <= |c.out|
    ensures var r := HandleWrite(c, n); r.state == c.state && r.accepted == c.accepted && r.asked == c.asked
  {
  }

  /** A connection once asked to shut down takes no more messages. */
  lemma {:induction false} NothingMoreAccepted(c: Conn, ops: seq<Op>)
    requires c.state != Connected
    ensures var r := Run(c, ops); r.Reached? ==> r.c.accepted == c.accepted && r.c.asked == c.asked
    decreases |ops|
  {
    if ops != [] && OpOk(c, ops[0]) {
      StepAsked(c, ops[0]);
      NothingMoreAccepted(Apply(c, ops[0]), ops[1..]);
    }
  }

  /** What holds of every state behind a shutdown. */
  lemma AfterShutdown(c: Conn, later: seq<Op>)
    requires Inv(c) && c.state == Connected
    ensures var r := Run(c, [DoShutdown] + later);
      r.Reached? ==>
        && (r.c.fins != [] ==> r.c.wire == c.accepted && r.c.fins == [|r.c.wire|])
        && (Open(r.c) ==> (r.c.fins != [] <==> r.c.out == []))
  {
    var ops := [DoShutdown] + later;
    assert ops[1..] == later && Run(c, ops) == Run(Shutdown(c), later);
    ShutdownKeeps(c);
    RunKeeps(Shutdown(c), later);
    NothingMoreAccepted(Shutdown(c), later);
  }

  /** Replies sent just before a shutdown are on the wire, whole and in order, behind all
      that was sent earlier, when the half-close is made; nothing ever follows it; and until
      the connection is closed it has been made exactly when the buffer is empty. */
  lemma RepliesPrecedeHalfClose(c: Conn, replies: seq<Op>, later: seq<Op>)
    requires Inv(c) && c.state == Connected && AllSends(replies)
    ensures var r := Run(c, replies + ([DoShutdown] + later));
      r.Reached? ==>
        && (r.c.fins != [] ==> r.c.wire == c.accepted + Messages(replies) && r.c.fins == [|r.c.wire|])
        && (Open(r.c) ==> (r.c.fins != [] <==> r.c.out == []))
  {
    RunAppend(c, replies, [DoShutdown] + later);
    RunKeeps(c, replies);
    SendsAccepted(c, replies);
    var sent := Run(c, replies);
    if sent.Reached? {
      AfterShutdown(sent.c, later);
    }
  }

  // ----------------------------------------------------------------- flow control

  lemma AnsweredSnoc(q: seq<Functor>, f: Functor, pending: bool)
    requires HighWatersAnswered(q, pending)
    ensures f == OnWriteComplete ==> HighWatersAnswered(q + [f], false) && OnWriteComplete in q + [f]
    ensures !f.OnHighWater? ==> HighWatersAnswered(q + [f], pending)
  {
    var r := q + [f];
    forall i | 0 <= i < |r| && r[i].OnHighWater?
      ensures f == OnWriteComplete ==> OnWriteComplete in r[i + 1..]
      ensures !f.OnHighWater? && !pending ==> OnWriteComplete in r[i + 1..]
    {
      if i < |q| {
        assert r[i + 1..] == q[i + 1..] + [f];
      }
    }
  }

  /** Draining the buffer queues a write-complete behind every waiting high-water. */
  lemma AllAnswered(q: seq<Functor>)
    ensures HighWatersAnswered(q + [OnWriteComplete], false) && OnWriteComplete in q + [OnWriteComplete]
  {
    AnsweredSnoc(q, OnWriteComplete, true);
  }

  lemma AnsweredTail(q: seq<Functor>, pending: bool)
    requires q != [] && HighWatersAnswered(q, pending)
    ensures HighWatersAnswered(q[1..], pending)
    ensures q[0].OnHighWater? && !pending ==> OnWriteComplete in q[1..]
  {
    forall i | 0 <= i < |q| - 1 && q[1..][i].OnHighWater? && !pending
      ensures OnWriteComplete in q[1..][i + 1..]
    {
      assert q[1..][i + 1..] == q[i + 2..];
    }
  }

  /** When a high-water callback is set, so is a write-complete callback. */
  predicate Paired(c: Conn) { c.hasHigh && c.mark > 0 ==> c.hasWriteComplete }

  lemma SendFlow(c: Conn, message: seq<byte>, n: int)
    requires Inv(c) && FlowInv(c) && Paired(c) && OpOk(c, DoSend(message, n))
    ensures FlowInv(Send(c, message, n))
  {
    if c.state == Connected {
      var r := Send(c, message, n);
      if r.out == [] {
        AnsweredSnoc(c.queue, OnWriteComplete, c.out != []);
      }
    }
  }

  lemma WriteFlow(c: Conn, n: int)
    requires Inv(c) && FlowInv(c) && n <= |c.out|
    ensures FlowInv(HandleWrite(c, n))
  {
    AllAnswered(c.queue);
  }

  lemma ForceCloseFlow(c: Conn)
    requires FlowInv(c)
    ensures FlowInv(ForceClose(c))
  {
    if Open(c) && c.hasWriteComplete {
      AnsweredSnoc(c.queue, ForceCloseInLoop, c.out != []);
    }
  }

  lemma FunctorFlow(c: Conn)
    requires Inv(c) && FlowInv(c) && c.queue != []
    ensures FlowInv(RunFunctor(c))
  {
    match c.queue[0]
    case ForceCloseInLoop => CallbackFlow(c, RunFunctor(c));
    case OnWriteComplete => CallbackFlow(c, RunFunctor(c));
    case OnHighWater(_) => CallbackFlow(c, RunFunctor(c));
  }

  /** Taking the oldest functor leaves the rest answered, once reading follows the functor. */
  lemma CallbackFlow(c: Conn, r: Conn)
    requires WriteInterestOk(c) && FlowInv(c) && c.queue != [] && r.queue == c.queue[1..]
    requires Open(r) ==> Open(c) && r.out == c.out && r.hasWriteComplete == c.hasWriteComplete && r.events.write == c.events.write
    requires Open(r) ==> r.events.read == if c.queue[0].OnWriteComplete? then true else if c.queue[0].OnHighWater? then false else c.events.read
    ensures FlowInv(r)
  {
    if Open(r) {
      if c.hasWriteComplete {
        AnsweredTail(c.queue, c.out != []);
      } else {
        assert forall f <- c.queue[1..] :: f in c.queue;
      }
    }
  }

  lemma StepFlow(c: Conn, op: Op)
    requires Inv(c) && FlowInv(c) && Paired(c) && OpOk(c, op)
    ensures FlowInv(Apply(c, op)) && Paired(Apply(c, op))
  {
    match op
    case DoSend(message, n) => SendFlow(c, message, n);
    case Writable(n) => WriteFlow(c, n);
    case DoForceClose => ForceCloseFlow(c);
    case RunNext => FunctorFlow(c);
    case DoShutdown =>
    case PeerClosed =>
  }

  lemma {:induction false} RunFlow(c: Conn, ops: seq<Op>)
    requires Inv(c) && FlowInv(c) && Paired(c)
    ensures Run(c, ops).Reached? ==> FlowOk(Run(c, ops).c)
    decreases |ops|
  {
    if ops != [] && OpOk(c, ops[0]) {
      StepKeeps(c, ops[0]);
      StepFlow(c, ops[0]);
      RunFlow(Apply(c, ops[0]), ops[1..]);
    }
  }

  /** A send one byte over the mark, the callback that stops reading, and a complete write:
      without a write-complete callback nothing will ever start reading again. */
  lemma FlowSticks(mark: nat) returns (ops: seq<Op>)
    requires mark > 0
    ensures var r := Run(Established(mark, true, false), ops); r.Reached? && !FlowOk(r.c) && r.c.queue == []
  {
    var message := Zeros(mark + 1);
    var c0 := Established(mark, true, false);
    var c1 := Send(c0, message, 0);
    assert message[..0] == [] && message[0..] == message && c0.out + message == message;
    assert c1.queue == [OnHighWater(mark + 1)] && c1.out == message;
    var c2 := RunFunctor(c1);
    assert c2.queue == [] && !c2.events.read && c2.out == message;
    var c3 := HandleWrite(c2, mark + 1);
    assert c3.out == [] && c3.queue == [];
    ops := [DoSend(message, 0), RunNext, Writable(mark + 1)];
    assert ops[1..] == [RunNext, Writable(mark + 1)] && ops[1..][1..] == [Writable(mark + 1)];
    assert Run(c2, [Writable(mark + 1)]) == Run(c3, []);
    assert Run(c1, [RunNext, Writable(mark + 1)]) == Run(c2, [Writable(mark + 1)]);
    assert Run(c0, ops) == Run(c1, ops[1..]);
  }

  /** Reading never sticks, over all runs, exactly when a set high-water callback comes
      with a write-complete callback. */
  lemma FlowNeverSticksExactly(mark: nat, hasHigh: bool, hasWriteComplete: bool)
    ensures (forall ops :: var r := Run(Established(mark, hasHigh, hasWriteComplete), ops); r.Reached? ==> FlowOk(r.c))
      <==> (hasHigh && mark > 0 ==> hasWriteComplete)
  {
    var c := Established(mark, hasHigh, hasWriteComplete);
    if hasHigh && mark > 0 && !hasWriteComplete {
      var ops := FlowSticks(mark);
      assert !(Run(c, ops).Reached? ==> FlowOk(Run(c, ops).c));
    } else {
      forall ops
        ensures Run(c, ops).Reached? ==> FlowOk(Run(c, ops).c)
      {
        RunFlow(c, ops);
      }
    }
  }

  /** A send queues the high-water callback exactly when it lifts the output buffer from
      below the mark to above it. */
  lemma HighWaterExactly(c: Conn, message: seq<byte>, n: int)
    requires Inv(c) && c.state == Connected && c.hasHigh && OpOk(c, DoSend(message, n))
    ensures var r := Send(c, message, n);
      (c.queue + [OnHighWater(|r.out|)] == r.queue <==> |c.out| < c.mark < |r.out|)
      && (r.queue == c.queue || r.queue == c.queue + [OnHighWater(|r.out|)] || r.queue == c.queue + [OnWriteComplete])
  {
    var r := Send(c, message, n);
    assert |r.queue| >= |c.queue|;
    if c.queue + [OnHighWater(|r.out|)] == r.queue {
      assert r.queue[|c.queue|].OnHighWater?;
    }
  }
}
