/**
 Every step of every loop keeps the life-cycle invariant, so it holds in every
 state any interleaving reaches; and the two ways to break it are exhibited.
 */
module LifeCycleRuns {
  import opened PollerSpec
  import opened ConnectionState
  import opened LifeCycle
  import opened LifeCycleSafety

  /** The event closes the connection before it asks for a read. */
  predicate ClosesThenReads(ev: Revents) { ev.hup && !ev.input && (ev.pri || ev.rdhup) }

  /** A message callback in which a send breaks an assertion. */
  predicate SendRefused(s: Sys, c: nat, ev: Revents, n: int, reply: Reply) {
    && (ev.input || (!ev.hup && (ev.pri || ev.rdhup))) && n > 0
    && c < |s.conns| && s.conns[c].state == Connected && !NoneRefused(reply.sends)
  }

  /** All but three kinds of step: an event that closes the connection and then reads from it
      (and the read does not fail), a message callback in which a send breaks an assertion,
      and startRead on a connection that is not open. */
  predicate Orderly(s: Sys, step: Step) {
    match step
    case Handle(l, c, ev, n, reply, _) => !(ClosesThenReads(ev) && n >= 0) && !SendRefused(s, c, ev, n, reply)
    case UserStartRead(l, c) => c < |s.conns| && StageOf(s.conns[c], c in s.registry).Live?
    case _ => true
  }

  // ------------------------------------------------------------- turns of a loop

  /** A change of one loop's turn that moves no functor and no channel. */
  lemma TurnFrame(s: Sys, l: nat, lp: Loop)
    requires Inv(s) && l < |s.loops| && lp.poller == s.loops[l].poller
    requires lp.batch + lp.pending == s.loops[l].batch + s.loops[l].pending
    requires lp.phase != Running ==> lp.batch == []
    requires lp.phase != Handling ==> lp.active == {}
    requires forall c <- lp.active :: c < |s.conns| && s.conns[c].loop == l
    ensures Global(s.(loops := s.loops[l := lp]))
  {
    var r := s.(loops := s.loops[l := lp]);
    PollersFrame(s, r);
    forall m: nat | m < |r.loops|
      ensures QueuePlaced(r.conns, r.loops[m].batch, m) && QueuePlaced(r.conns, r.loops[m].pending, m)
    {
      assert QueuePlaced(s.conns, s.loops[m].batch, m) && QueuePlaced(s.conns, s.loops[m].pending, m);
      if m == l {
        QueueMembers(s.loops[l], lp);
      }
    }
    forall c, d | 0 <= c < d < |r.conns| && Stages(r, c) != Gone && Stages(r, d) != Gone
      ensures r.conns[c].chan.fd != r.conns[d].chan.fd
    {
      assert Stages(s, c) != Gone && Stages(s, d) != Gone;
    }
  }

  lemma QueueMembers(lp: Loop, lr: Loop)
    requires lr.batch + lr.pending == lp.batch + lp.pending
    ensures forall t :: t in lr.batch || t in lr.pending ==> t in lp.batch || t in lp.pending
    ensures forall t :: Count(lr, t) == Count(lp, t)
  {
    forall t
      ensures t in lr.batch || t in lr.pending ==> t in lp.batch || t in lp.pending
      ensures Count(lr, t) == Count(lp, t)
    {
      assert (t in lr.batch || t in lr.pending) == (t in lr.batch + lr.pending);
      assert (t in lp.batch || t in lp.pending) == (t in lp.batch + lp.pending);
      assert multiset(lr.batch + lr.pending)[t] == Count(lr, t);
      assert multiset(lp.batch + lp.pending)[t] == Count(lp, t);
    }
  }

  /** What a change of loop `l`'s turn does to the view of a connection. */
  lemma TurnView(s: Sys, l: nat, lp: Loop, d: nat)
    requires Shaped(s) && l < |s.loops| && d < |s.conns|
    requires lp.batch + lp.pending == s.loops[l].batch + s.loops[l].pending
    ensures var v := ViewOf(s, d);
      ViewOf(s.(loops := s.loops[l := lp]), d) ==
        if s.conns[d].loop != l then v
        else v.(phase := lp.phase, active := d in lp.active,
                inBatch := Callbacks(lp.batch, d), inPending := Callbacks(lp.pending, d))
  {
    QueueMembers(s.loops[l], lp);
  }

  /** The descriptor is known in loop `l` and stands for an added channel of that loop. */
  ghost predicate Known(s: Sys, l: nat, fd: int)
    requires l < |s.loops|
  {
    fd in s.loops[l].poller.channels &&
    var c := s.loops[l].poller.channels[fd];
    c < |s.conns| && s.conns[c].loop == l && s.conns[c].chan.index == Added
  }

  lemma ReadyKnown(s: Sys, l: nat, ready: set<int>)
    requires Shaped(s) && Pollers(s) && l < |s.loops| && ready <= s.loops[l].poller.kernel.Keys
    ensures forall fd <- ready :: Known(s, l, fd)
    ensures ready <= s.loops[l].poller.channels.Keys
  {
    var p := s.loops[l].poller;
    assert Coherent(p, Chans(s, l));
    forall fd | fd in ready
      ensures Known(s, l, fd) && fd in p.channels
    {
      assert fd in p.kernel;
      ChannelOwner(s, l, fd);
    }
  }

  lemma PollKeeps(s: Sys, l: nat, ready: set<int>)
    requires Inv(s) && Enabled(s, PollReturns(l, ready))
    ensures Inv(Next(s, PollReturns(l, ready)))
  {
    var lp := s.loops[l];
    ReadyKnown(s, l, ready);
    var active := set fd | fd in ready && fd in lp.poller.channels :: lp.poller.channels[fd];
    forall c | c in active
      ensures c < |s.conns| && s.conns[c].loop == l && s.conns[c].chan.index == Added
    {
      var fd :| fd in ready && fd in lp.poller.channels && lp.poller.channels[fd] == c;
      assert Known(s, l, fd);
    }
    var lr := lp.(phase := Handling, active := active);
    TurnFrame(s, l, lr);
    var r := s.(loops := s.loops[l := lr]);
    forall d: nat | d < |s.conns|
      ensures Good(ViewOf(r, d))
    {
      TurnView(s, l, lr, d);
      assert Good(ViewOf(s, d));
    }
    assert Next(s, PollReturns(l, ready)) == r;
  }

  lemma SwapKeeps(s: Sys, l: nat)
    requires Inv(s) && Enabled(s, Swap(l))
    ensures Inv(Next(s, Swap(l)))
  {
    var lp := s.loops[l];
    var lr := lp.(phase := Running, batch := lp.pending, pending := []);
    assert lr.batch + lr.pending == lp.batch + lp.pending;
    TurnFrame(s, l, lr);
    forall d: nat | d < |s.conns|
      ensures Good(ViewOf(Next(s, Swap(l)), d))
    {
      TurnView(s, l, lr, d);
      assert Good(ViewOf(s, d));
    }
  }

  lemma EndKeeps(s: Sys, l: nat)
    requires Inv(s) && Enabled(s, EndBatch(l))
    ensures Inv(Next(s, EndBatch(l)))
  {
    var lr := s.loops[l].(phase := Polling);
    TurnFrame(s, l, lr);
    forall d: nat | d < |s.conns|
      ensures Good(ViewOf(Next(s, EndBatch(l)), d))
    {
      TurnView(s, l, lr, d);
      assert Good(ViewOf(s, d));
    }
  }

  // ------------------------------------------------------------- running functors

  /** The view with functor `t` added to the batch. */
  function Bump(v: View, t: Task): View {
    v.(establish := v.establish + One(t.Establish?), remove := v.remove + One(t.RemoveInLoop?),
       destroy := v.destroy + One(t.Destroy?), inBatch := v.inBatch + One(IsCallback(t)))
  }

  function Pop(s: Sys, l: nat): Sys
    requires l < |s.loops| && s.loops[l].batch != []
  {
    s.(loops := s.loops[l := s.loops[l].(batch := s.loops[l].batch[1..])])
  }

  lemma PopCounts(q: seq<Task>)
    requires q != []
    ensures forall x :: multiset(q)[x] == multiset(q[1..])[x] + (if x == q[0] then 1 else 0)
  {
    assert q == [q[0]] + q[1..];
  }

  lemma PopPlaced(s: Sys, l: nat)
    requires Placed(s) && l < |s.loops| && s.loops[l].batch != []
    ensures Placed(Pop(s, l)) && InRightLoop(s.conns, s.loops[l].batch[0], l)
  {
    var r := Pop(s, l);
    assert QueuePlaced(s.conns, s.loops[l].batch, l);
    forall m: nat | m < |r.loops|
      ensures QueuePlaced(r.conns, r.loops[m].batch, m) && QueuePlaced(r.conns, r.loops[m].pending, m)
    {
      assert QueuePlaced(s.conns, s.loops[m].batch, m) && QueuePlaced(s.conns, s.loops[m].pending, m);
    }
  }

  lemma PopTouches(s: Sys, l: nat)
    requires Shaped(s) && l < |s.loops| && s.loops[l].batch != []
    ensures OnlyTouches(s, Pop(s, l), s.loops[l].batch[0].c)
  {
    PopCounts(s.loops[l].batch);
  }

  lemma PopView(s: Sys, l: nat)
    requires Shaped(s) && l < |s.loops| && s.loops[l].batch != [] && InRightLoop(s.conns, s.loops[l].batch[0], l)
    ensures var t := s.loops[l].batch[0]; ViewOf(s, t.c) == Bump(ViewOf(Pop(s, l), t.c), t)
  {
    var t := s.loops[l].batch[0];
    PopOwn(s, l, t);
    PopBase(s, l, t);
    BumpFields(ViewOf(s, t.c), ViewOf(Pop(s, l), t.c), t);
  }

  lemma BumpFields(v: View, w: View, t: Task)
    requires v.conn == w.conn && v.registered == w.registered && v.phase == w.phase && v.active == w.active
    requires v.inPending == w.inPending && v.establish == w.establish + One(t.Establish?)
    requires v.remove == w.remove + One(t.RemoveInLoop?) && v.destroy == w.destroy + One(t.Destroy?)
    requires v.inBatch == w.inBatch + One(IsCallback(t))
    ensures v == Bump(w, t)
  {
  }

  lemma PopOwn(s: Sys, l: nat, t: Task)
    requires Shaped(s) && l < |s.loops| && s.loops[l].batch != [] && t == s.loops[l].batch[0] && InRightLoop(s.conns, t, l)
    ensures var v := ViewOf(s, t.c); var w := ViewOf(Pop(s, l), t.c);
      && v.conn == w.conn && v.registered == w.registered && v.phase == w.phase && v.active == w.active
      && v.inPending == w.inPending && v.establish == w.establish + One(t.Establish?)
      && v.destroy == w.destroy + One(t.Destroy?) && v.inBatch == w.inBatch + One(IsCallback(t))
  {
    PopCount(s, l, t, s.conns[t.c].loop);
  }

  lemma PopBase(s: Sys, l: nat, t: Task)
    requires Shaped(s) && l < |s.loops| && s.loops[l].batch != [] && t == s.loops[l].batch[0] && InRightLoop(s.conns, t, l)
    ensures ViewOf(s, t.c).remove == ViewOf(Pop(s, l), t.c).remove + One(t.RemoveInLoop?)
  {
    PopCount(s, l, t, BASE);
  }

  /** How many functors of each kind loop `m` holds for the connection named by the one popped. */
  lemma PopCount(s: Sys, l: nat, t: Task, m: nat)
    requires l < |s.loops| && m < |s.loops| && s.loops[l].batch != [] && t == s.loops[l].batch[0]
    ensures var lp := s.loops[m]; var lr := Pop(s, l).loops[m];
      && lr.phase == lp.phase && lr.active == lp.active && lr.pending == lp.pending
      && Count(lp, Establish(t.c)) == Count(lr, Establish(t.c)) + One(m == l && t.Establish?)
      && Count(lp, RemoveInLoop(t.c)) == Count(lr, RemoveInLoop(t.c)) + One(m == l && t.RemoveInLoop?)
      && Count(lp, Destroy(t.c)) == Count(lr, Destroy(t.c)) + One(m == l && t.Destroy?)
      && Callbacks(lp.batch, t.c) == Callbacks(lr.batch, t.c) + One(m == l && IsCallback(t))
  {
    PopCounts(s.loops[l].batch);
  }

  lemma PopEffect(s: Sys, l: nat)
    requires Sound(s) && l < |s.loops| && s.loops[l].batch != []
    ensures var t := s.loops[l].batch[0];
      && InRightLoop(s.conns, t, l) && Harmless(s, Pop(s, l), t.c)
      && ViewOf(s, t.c) == Bump(ViewOf(Pop(s, l), t.c), t)
  {
    PollersFrame(s, Pop(s, l));
    PopPlaced(s, l);
    PopTouches(s, l);
    PopView(s, l);
  }

  lemma HandledHistory(h: seq<Event>, stage: Stage)
    requires HistoryOk(h, stage) && stage.Live?
    ensures HistoryOk(h + [Handled], Live) && HistoryOk(h + [Down], Closed) && HistoryOk(h + [Down], Erased)
  {
    var n := |h|;
    assert (h + [Handled])[1..] == h[1..] + [Handled];
    assert (h + [Down])[1..n] == h[1..];
  }

  lemma DestroyedHistory(h: seq<Event>)
    requires HistoryOk(h, Erased)
    ensures HistoryOk(h + [Destroyed], Gone)
  {
    var n := |h|;
    assert (h + [Destroyed])[1..n-1] == h[1..n-1];
  }

  // Each of these runs a functor in a state `m` in which it is no longer queued.

  lemma RemoveKeeps(m: Sys, c: nat)
    requires InvBut(m, c) && c < |m.conns| && Good(Bump(ViewOf(m, c), RemoveInLoop(c)))
    ensures Inv(RemoveConnectionInLoop(m, c))
  {
    RemoveEffect(m, c);
    Restored(m, RemoveConnectionInLoop(m, c), c);
  }

  lemma DestroyKeeps(m: Sys, c: nat)
    requires InvBut(m, c) && c < |m.conns| && Good(Bump(ViewOf(m, c), Destroy(c)))
    ensures Inv(ConnectDestroyed(m, c))
  {
    DestroyEffect(m, c);
    DestroyedHistory(m.conns[c].history);
    Restored(m, ConnectDestroyed(m, c), c);
  }

  /** A change that keeps an open connection open keeps the invariant. */
  lemma LiveRestored(s: Sys, r: Sys, c: nat)
    requires InvBut(s, c) && StaysLive(s, r, c) && r.conns[c].chan.index != New
    requires Good(ViewOf(s, c)) && !ViewOf(s, c).active
    requires ViewOf(r, c).inPending > 0 ==> ViewOf(s, c).phase == Handling
    requires r.conns[c].history == s.conns[c].history || r.conns[c].history == s.conns[c].history + [Handled]
    ensures Inv(r)
  {
    HandledHistory(s.conns[c].history, Live);
    Restored(s, r, c);
  }

  lemma CallbackKeeps(m: Sys, c: nat, t: Task)
    requires InvBut(m, c) && c < |m.conns| && t in {WriteComplete(c), HighWater(c)}
    requires Good(Bump(ViewOf(m, c), t)) && ViewOf(m, c).phase == Running
    ensures Inv(RunTask(m, t))
  {
    CallbackEffect(m, c, t);
    LiveRestored(m, RunTask(m, t), c);
  }

  lemma RunKeeps(s: Sys, l: nat)
    requires Inv(s) && Enabled(s, RunNext(l))
    ensures Inv(Next(s, RunNext(l)))
  {
    var t := s.loops[l].batch[0];
    PopEffect(s, l);
    assert Good(ViewOf(s, t.c));
    HarmlessKeepsOthers(s, Pop(s, l), t.c);
    match t {
      case Establish(c) => EstablishKeeps(Pop(s, l), c);
      case RemoveInLoop(c) => RemoveKeeps(Pop(s, l), c);
      case Destroy(c) => DestroyKeeps(Pop(s, l), c);
      case WriteComplete(c) => CallbackKeeps(Pop(s, l), c, t);
      case HighWater(c) => CallbackKeeps(Pop(s, l), c, t);
    }
  }

  // ------------------------------------------------------------ handling events

  function Take(s: Sys, l: nat, c: nat): Sys
    requires l < |s.loops|
  {
    s.(loops := s.loops[l := s.loops[l].(active := s.loops[l].active - {c})])
  }

  /** An open connection whose event is being handled: ready in this turn, and taken. */
  ghost predicate InHand(s: Sys, c: nat) {
    && Inv(s) && c < |s.conns| && Stages(s, c).Live?
    && ViewOf(s, c).phase == Handling && !ViewOf(s, c).active
  }

  lemma TakeEffect(s: Sys, l: nat, c: nat)
    requires Inv(s) && l < |s.loops| && s.loops[l].phase == Handling && c in s.loops[l].active
    ensures InHand(Take(s, l, c), c) && Take(s, l, c).conns == s.conns
    ensures s.conns[c].chan.index == Added
    ensures ViewOf(Take(s, l, c), c).inBatch + ViewOf(Take(s, l, c), c).inPending == 0
  {
    var lr := s.loops[l].(active := s.loops[l].active - {c});
    TurnFrame(s, l, lr);
    TurnView(s, l, lr, c);
    assert ViewOf(s, c).active && Good(ViewOf(s, c));
    forall d: nat | d < |s.conns|
      ensures Good(ViewOf(Take(s, l, c), d))
    {
      TurnView(s, l, lr, d);
      assert Good(ViewOf(s, d));
    }
  }

  lemma CloseKeeps(s: Sys, c: nat)
    requires Inv(s) && c < |s.conns| && Stages(s, c).Live? && s.conns[c].chan.index == Added
    requires !ViewOf(s, c).active && ViewOf(s, c).inBatch + ViewOf(s, c).inPending == 0
    ensures Inv(HandleClose(s, c))
    ensures HandleClose(s, c).conns[c].state == Disconnected && HandleClose(s, c).conns[c].chan.events == NONE_EVENT
  {
    assert Good(ViewOf(s, c));
    CloseEffect(s, c);
    HandledHistory(s.conns[c].history, Live);
    Restored(s, HandleClose(s, c), c);
  }

  lemma MessageKeeps(s: Sys, c: nat, reply: Reply)
    requires InHand(s, c) && (s.conns[c].state == Connected ==> NoneRefused(reply.sends))
    ensures InHand(OnMessage(s, c, reply), c)
  {
    assert Good(ViewOf(s, c));
    MessageEffect(s, c, reply);
    LiveRestored(s, OnMessage(s, c, reply), c);
  }

  lemma WriteKeeps(s: Sys, c: nat, drained: bool)
    requires InHand(s, c)
    ensures InHand(HandleWrite(s, c, drained), c)
  {
    assert Good(ViewOf(s, c));
    WriteEffect(s, c, drained);
    LiveRestored(s, HandleWrite(s, c, drained), c);
  }

  lemma HandleKeeps(s: Sys, step: Step)
    requires Inv(s) && step.Handle? && Enabled(s, step) && Orderly(s, step)
    ensures Inv(Next(s, step))
  {
    var Handle(l, c, ev, n, reply, drained) := step;
    var m := Take(s, l, c);
    TakeEffect(s, l, c);
    InterestBitsIndependent(NONE_EVENT);
    assert Next(s, step) == HandleEvent(m, c, ev, n, reply, drained);
    if (ev.hup && !ev.input) || ((ev.input || ev.pri || ev.rdhup) && n == 0) {
      CloseKeeps(m, c);
      assert Next(s, step) == HandleClose(m, c);
    } else {
      if (ev.input || ev.pri || ev.rdhup) && n > 0 {
        MessageKeeps(m, c, reply);
        WriteKeeps(OnMessage(m, c, reply), c, drained);
      } else {
        WriteKeeps(m, c, drained);
      }
    }
  }

  lemma IdleKeeps(s: Sys, l: nat, c: nat)
    requires Inv(s) && Enabled(s, IdleTimeout(l, c))
    ensures Inv(Next(s, IdleTimeout(l, c)))
  {
    if s.conns[c].state == Connected {
      assert Good(ViewOf(s, c));
      HarmlessRewrite(s, c, s.conns[c].(state := Disconnecting));
      Restored(s, Shutdown(s, c), c);
    }
  }

  lemma StartReadKeeps(s: Sys, l: nat, c: nat)
    requires Inv(s) && Enabled(s, UserStartRead(l, c)) && Stages(s, c).Live?
    ensures Inv(Next(s, UserStartRead(l, c)))
  {
    assert Good(ViewOf(s, c));
    StartReadEffect(s, c);
    Restored(s, StartRead(s, c), c);
  }

  // --------------------------------------------------------------- new connections

  lemma CoherentNewcomer(p: Poller<nat>, chans: map<nat, Chan>, c: nat, ch: Chan)
    requires Coherent(p, chans) && c !in chans && ch.index == New
    ensures Coherent(p, chans[c := ch])
  {
  }

  /** Every connection that is not gone is owned: by the registry, or by the functor that will destroy it. */
  lemma NotGoneOwned(s: Sys, c: nat)
    requires Inv(s) && c < |s.conns| && Stages(s, c) != Gone
    ensures Owned(s, c)
  {
    assert Good(ViewOf(s, c));
    if Stages(s, c).Erased? {
      var l := s.conns[c].loop;
      assert Destroy(c) in s.loops[l].batch || Destroy(c) in s.loops[l].pending;
    }
  }

  function Newcomer(s: Sys, fd: int, l: nat): Sys {
    s.(conns := s.conns + [Conn(l, Chan(fd, NONE_EVENT, New), Connecting, false, [])],
       registry := s.registry + {|s.conns|})
  }

  lemma NewcomerSound(s: Sys, fd: int, l: nat)
    requires Inv(s) && l < |s.loops|
    ensures Sound(Newcomer(s, fd, l))
  {
    var r := Newcomer(s, fd, l);
    var c := |s.conns|;
    forall m: nat | m < |r.loops|
      ensures Coherent(r.loops[m].poller, Chans(r, m))
    {
      assert Coherent(s.loops[m].poller, Chans(s, m));
      if m == l {
        assert Chans(r, m) == Chans(s, m)[c := r.conns[c].chan];
        CoherentNewcomer(s.loops[m].poller, Chans(s, m), c, r.conns[c].chan);
      } else {
        assert Chans(r, m) == Chans(s, m);
      }
    }
    forall m: nat | m < |r.loops|
      ensures QueuePlaced(r.conns, r.loops[m].batch, m) && QueuePlaced(r.conns, r.loops[m].pending, m)
    {
      assert QueuePlaced(s.conns, s.loops[m].batch, m) && QueuePlaced(s.conns, s.loops[m].pending, m);
    }
  }

  lemma NewcomerView(s: Sys, fd: int, l: nat)
    requires Inv(s) && l < |s.loops|
    ensures var r := Newcomer(s, fd, l);
      ViewOf(r, |s.conns|) == View(r.conns[|s.conns|], true, s.loops[l].phase, false, 0, 0, 0, 0, 0)
  {
    assert QueuePlaced(s.conns, s.loops[l].batch, l) && QueuePlaced(s.conns, s.loops[l].pending, l);
    assert QueuePlaced(s.conns, s.loops[BASE].batch, BASE) && QueuePlaced(s.conns, s.loops[BASE].pending, BASE);
    NobodyNames(s.conns, s.loops[l].batch, l);
    NobodyNames(s.conns, s.loops[l].pending, l);
    NobodyNames(s.conns, s.loops[BASE].batch, BASE);
    NobodyNames(s.conns, s.loops[BASE].pending, BASE);
    assert |s.conns| !in s.loops[l].active;
  }

  lemma NobodyNames(conns: seq<Conn>, q: seq<Task>, l: nat)
    requires QueuePlaced(conns, q, l)
    ensures forall t: Task :: t.c == |conns| ==> multiset(q)[t] == 0
  {
    forall t: Task | t.c == |conns|
      ensures multiset(q)[t] == 0
    {
      assert t !in q;
    }
  }

  lemma NewcomerInv(s: Sys, fd: int, l: nat)
    requires Inv(s) && l < |s.loops|
    requires forall c: nat :: c < |s.conns| && Owned(s, c) ==> s.conns[c].chan.fd != fd
    ensures InvBut(Newcomer(s, fd, l), |s.conns|)
  {
    var r := Newcomer(s, fd, l);
    NewcomerSound(s, fd, l);
    forall d: nat | d < |s.conns|
      ensures ViewOf(r, d) == ViewOf(s, d) && Stages(r, d) == Stages(s, d)
      ensures Stages(s, d) != Gone ==> s.conns[d].chan.fd != fd
    {
      if Stages(s, d) != Gone {
        NotGoneOwned(s, d);
      }
    }
  }

  lemma AcceptKeeps(s: Sys, fd: int, l: nat)
    requires Inv(s) && Enabled(s, Accept(fd, l))
    ensures Inv(Next(s, Accept(fd, l)))
  {
    var c := |s.conns|;
    var m := Newcomer(s, fd, l);
    NewcomerInv(s, fd, l);
    NewcomerView(s, fd, l);
    if l == BASE {
      EstablishKeeps(m, c);
    } else {
      HarmlessPush(m, l, Establish(c));
      PushView(m, l, Establish(c));
      Restored(m, Push(m, l, Establish(c)), c);
    }
  }

  // -------------------------------------------------------------------- whole runs

  function Init(n: nat): Sys {
    Sys([], {}, seq(n, _ => Loop(Polling, {}, [], [], Poller(map[], map[]))), true)
  }

  lemma InitInv(n: nat)
    requires n > 0
    ensures Inv(Init(n))
  {
    var s := Init(n);
    forall l: nat | l < n
      ensures Coherent(s.loops[l].poller, Chans(s, l))
      ensures QueuePlaced(s.conns, s.loops[l].batch, l) && QueuePlaced(s.conns, s.loops[l].pending, l)
    {
    }
  }

  lemma StepKeeps(s: Sys, step: Step)
    requires Inv(s) && Enabled(s, step) && Orderly(s, step)
    ensures Inv(Next(s, step))
  {
    match step
    case PollReturns(l, ready) => PollKeeps(s, l, ready);
    case Accept(fd, l) => AcceptKeeps(s, fd, l);
    case Handle(_, _, _, _, _, _) => HandleKeeps(s, step);
    case IdleTimeout(l, c) => IdleKeeps(s, l, c);
    case UserStartRead(l, c) => StartReadKeeps(s, l, c);
    case Swap(l) => SwapKeeps(s, l);
    case RunNext(l) => RunKeeps(s, l);
    case EndBatch(l) => EndKeeps(s, l);
  }

  /** `states` is a run of a server with `n` loops: any interleaving of enabled steps. */
  ghost predicate IsRun(n: nat, states: seq<Sys>, steps: seq<Step>) {
    && |states| == |steps| + 1 && states[0] == Init(n)
    && forall i :: 0 <= i < |steps| ==> Enabled(states[i], steps[i]) && states[i + 1] == Next(states[i], steps[i])
  }

  ghost predicate OrderlyRun(states: seq<Sys>, steps: seq<Step>)
    requires |states| == |steps| + 1
  {
    forall i :: 0 <= i < |steps| ==> Orderly(states[i], steps[i])
  }

  lemma {:induction false} RunInv(n: nat, states: seq<Sys>, steps: seq<Step>, i: nat)
    requires n > 0 && IsRun(n, states, steps) && OrderlyRun(states, steps) && i <= |steps|
    ensures Inv(states[i])
  {
    if i == 0 {
      InitInv(n);
    } else {
      RunInv(n, states, steps, i - 1);
      StepKeeps(states[i - 1], steps[i - 1]);
    }
  }

  /** What the life cycle promises of one connection, in its own terms. */
  ghost predicate LifeOk(s: Sys, c: nat)
    requires Shaped(s) && c < |s.conns|
  {
    var k := s.conns[c];
    var h := k.history;
    // one establishment, first; then handlers and callbacks; one close; one destruction, last
    && (exists stage :: HistoryOk(h, stage))
    // it stays in the registry until it is down, and is erased once
    && (Down !in h ==> c in s.registry)
    && (Destroyed in h ==> c !in s.registry)
    // while the poller knows its channel, something still owns it
    && (k.chan.index != New ==> Owned(s, c))
    // its channel is out of the poller before it is established and after it is destroyed
    && (h == [] || Destroyed in h ==> k.chan.index == New)
  }

  lemma LifeOkFromInv(s: Sys, c: nat)
    requires Inv(s) && c < |s.conns|
    ensures LifeOk(s, c)
  {
    assert Good(ViewOf(s, c));
    var stage := Stages(s, c);
    var h := s.conns[c].history;
    assert HistoryOk(h, stage);
    if stage != Gone {
      NotGoneOwned(s, c);
    }
    HistoryMembers(h, stage);
  }

  lemma HistoryMembers(h: seq<Event>, stage: Stage)
    requires HistoryOk(h, stage)
    ensures Down in h <==> stage in {Closed, Erased, Gone}
    ensures Destroyed in h <==> stage == Gone
  {
    var n := |h|;
    match stage {
      case Born =>
      case Live => assert h == [h[0]] + h[1..];
      case Closed => assert h == [h[0]] + h[1..n-1] + [h[n-1]];
      case Erased => assert h == [h[0]] + h[1..n-1] + [h[n-1]];
      case Gone => assert h == [h[0]] + h[1..n-2] + [h[n-2], h[n-1]];
    }
  }

  /** epoll may report the connection's channel. */
  ghost predicate Watched(s: Sys, c: nat)
    requires Shaped(s) && c < |s.conns|
  {
    var p := s.loops[s.conns[c].loop].poller;
    var fd := s.conns[c].chan.fd;
    fd in p.kernel && fd in p.channels && p.channels[fd] == c
  }

  /** What the life cycle promises of a state: no assertion has failed, every poller agrees
      with its kernel set, each connection has lived as LifeOk says, and none that is down is
      watched. */
  ghost predicate Safe(s: Sys) {
    && Shaped(s) && s.ok && Pollers(s)
    && (forall c: nat :: c < |s.conns| ==> LifeOk(s, c))
    && (forall c: nat :: c < |s.conns| && s.conns[c].state == Disconnected ==> !Watched(s, c))
  }

  lemma WatchedIsAdded(s: Sys, c: nat)
    requires Shaped(s) && Pollers(s) && c < |s.conns|
    ensures Watched(s, c) <==> s.conns[c].chan.index == Added
  {
    var l := s.conns[c].loop;
    assert Coherent(s.loops[l].poller, Chans(s, l));
    assert c in Chans(s, l) && Chans(s, l)[c] == s.conns[c].chan;
  }

  lemma DownUnwatched(s: Sys, c: nat)
    requires Inv(s) && c < |s.conns| && s.conns[c].state == Disconnected
    ensures !Watched(s, c)
  {
    assert Good(ViewOf(s, c));
    WatchedIsAdded(s, c);
  }

  lemma SafeFromInv(s: Sys)
    requires Inv(s)
    ensures Safe(s)
  {
    forall c: nat | c < |s.conns|
      ensures LifeOk(s, c) && (s.conns[c].state == Disconnected ==> !Watched(s, c))
    {
      LifeOkFromInv(s, c);
      if s.conns[c].state == Disconnected {
        DownUnwatched(s, c);
      }
    }
  }

  /** The cross-loop life cycle: every state of every run of orderly steps is as promised. */
  lemma LifeCycleSafe(n: nat, states: seq<Sys>, steps: seq<Step>, i: nat)
    requires n > 0 && IsRun(n, states, steps) && OrderlyRun(states, steps) && i <= |steps|
    ensures Safe(states[i])
  {
    RunInv(n, states, steps, i);
    SafeFromInv(states[i]);
  }

  // ------------------------------------------------------------- how it can break

  lemma {:induction false} SendsOk(s: Sys, c: nat, sends: seq<Sent>)
    requires Shaped(s) && c < |s.conns|
    ensures Sends(s, c, sends).ok ==> s.ok && NoneRefused(sends)
    decreases |sends|
  {
    if sends != [] {
      SendsOk(SendInLoop(s, c, sends[0]), c, sends[1..]);
      assert sends == [sends[0]] + sends[1..];
    }
  }

  lemma MessageRefused(s: Sys, c: nat, reply: Reply)
    requires Shaped(s) && c < |s.conns| && s.conns[c].state == Connected && !NoneRefused(reply.sends)
    ensures !OnMessage(s, c, reply).ok
  {
    SendsOk(s, c, reply.sends);
  }

  /** A handler that runs after the close shows in the history. */
  lemma HandledAfterDown(h: seq<Event>, stage: Stage)
    requires h != [] && h[|h| - 1] == Down
    ensures !HistoryOk(h + [Handled], stage)
  {
    var r := h + [Handled];
    var n := |r|;
    assert r[n - 1] == Handled && r[n - 2] == Down;
    if n > 2 {
      assert r[1..][n - 3] == Down && Down in r[1..];
    }
  }

  /** Closing and then reading a message: no assertion fails, but the message callback runs
      on a connection that is down, and its life is not what it should be. */
  lemma MessageAfterClose(s: Sys, c: nat, reply: Reply, drained: bool, output: bool)
    requires Inv(s) && c < |s.conns| && Stages(s, c).Live? && s.conns[c].chan.index == Added
    requires !ViewOf(s, c).active && ViewOf(s, c).inBatch + ViewOf(s, c).inPending == 0
    ensures var m := OnMessage(HandleClose(s, c), c, reply); var r := if output then HandleWrite(m, c, drained) else m;
      Shaped(r) && r.ok && !LifeOk(r, c) && !Inv(r)
  {
    InterestBitsIndependent(NONE_EVENT);
    CloseKeeps(s, c);
    CloseEffect(s, c);
    var d := HandleClose(s, c);
    var m := OnMessage(d, c, reply);
    var h := d.conns[c].history;
    assert h[|h| - 1] == Down;
    assert m.conns[c].history == h + [Handled] && HandleWrite(m, c, drained) == m;
    forall stage
      ensures !HistoryOk(h + [Handled], stage)
    {
      HandledAfterDown(h, stage);
    }
    assert !Good(ViewOf(m, c));
  }

  /** What handling an event makes of a state in which it is not orderly to handle it. */
  lemma DisorderlyHandle(s: Sys, step: Step)
    requires Inv(s) && step.Handle? && Enabled(s, step) && !Orderly(s, step)
    ensures !Inv(Next(s, step))
    ensures Next(s, step).ok <==> ClosesThenReads(step.ev) && step.n > 0
    ensures Next(s, step).ok ==> Shaped(Next(s, step)) && !LifeOk(Next(s, step), step.c)
  {
    var Handle(l, c, ev, n, reply, drained) := step;
    var m := Take(s, l, c);
    TakeEffect(s, l, c);
    InterestBitsIndependent(NONE_EVENT);
    assert Next(s, step) == HandleEvent(m, c, ev, n, reply, drained);
    if ClosesThenReads(ev) {
      CloseKeeps(m, c);
      if n > 0 {
        MessageAfterClose(m, c, reply, drained, ev.output);
      }
    } else {
      MessageRefused(m, c, reply);
    }
  }

  /** From any good state, handling an event fails an assertion exactly when it closes on a
      hang-up without input and then reads end-of-file in the same event, or when a send of
      its message callback does. */
  lemma HandleFailsExactly(s: Sys, step: Step)
    requires Inv(s) && step.Handle? && Enabled(s, step)
    ensures !Next(s, step).ok <==>
      (ClosesThenReads(step.ev) && step.n == 0) || SendRefused(s, step.c, step.ev, step.n, step.reply)
  {
    if Orderly(s, step) {
      HandleKeeps(s, step);
    } else {
      DisorderlyHandle(s, step);
    }
  }

  lemma StartReadUpdates(s: Sys, c: nat)
    requires Shaped(s) && Pollers(s) && c < |s.conns| && s.conns[c].chan.events == NONE_EVENT
    ensures var r := StartRead(s, c); var k := s.conns[c];
      && Shaped(r) && Watched(r, c) && |r.conns| == |s.conns| && r.registry == s.registry
      && r.conns[c].chan == Chan(k.chan.fd, NONE_EVENT | READ_EVENT, Added)
      && r.conns[c].state == k.state && r.conns[c].history == k.history
      && forall d: nat :: d < |s.conns| && d != c ==> r.conns[d] == s.conns[d] && (Watched(r, d) ==> Watched(s, d))
  {
    InterestBitsIndependent(NONE_EVENT);
    assert StartRead(s, c) == SetReading(SetEvents(s, c, NONE_EVENT | READ_EVENT), c, true);
    assert Coherent(s.loops[s.conns[c].loop].poller, Chans(s, s.conns[c].loop));
    assert c in Chans(s, s.conns[c].loop) && Chans(s, s.conns[c].loop)[c] == s.conns[c].chan;
  }

  /** A startRead on a connection that is not open always leaves a state that should not be:
      a connection that is down is watched again, or one not yet established is known to the
      poller. */
  lemma DisorderlyStartRead(s: Sys, l: nat, c: nat)
    requires Inv(s) && Enabled(s, UserStartRead(l, c)) && !Stages(s, c).Live?
    ensures var r := Next(s, UserStartRead(l, c));
      && Shaped(r) && !Safe(r) && !Inv(r)
      && if s.conns[c].state == Disconnected then r.conns[c].state == Disconnected && Watched(r, c) else !LifeOk(r, c)
  {
    assert Good(ViewOf(s, c));
    StartReadUpdates(s, c);
    var r := StartRead(s, c);
    assert !Safe(r) by {
      assert r.conns[c].state == Disconnected || (r.conns[c].history == [] && !LifeOk(r, c));
    }
    if Inv(r) {
      SafeFromInv(r);
    }
  }

  /** A step keeps what is promised exactly when it is orderly: in a state that satisfies the
      invariant, any other step breaks the promise at once. */
  lemma StepKeepsExactly(s: Sys, step: Step)
    requires Inv(s) && Enabled(s, step)
    ensures Inv(Next(s, step)) <==> Orderly(s, step)
    ensures Safe(Next(s, step)) <==> Orderly(s, step)
  {
    if Orderly(s, step) {
      StepKeeps(s, step);
      SafeFromInv(Next(s, step));
    } else if step.Handle? {
      DisorderlyHandle(s, step);
    } else {
      DisorderlyStartRead(s, step.l, step.c);
    }
  }

  lemma {:induction false} SafeMeansOrderly(n: nat, states: seq<Sys>, steps: seq<Step>, i: nat)
    requires n > 0 && IsRun(n, states, steps) && i <= |steps|
    requires forall j: nat :: j <= |steps| ==> Safe(states[j])
    ensures Inv(states[i]) && forall j: nat :: j < i ==> Orderly(states[j], steps[j])
  {
    if i == 0 {
      InitInv(n);
    } else {
      SafeMeansOrderly(n, states, steps, i - 1);
      StepKeepsExactly(states[i - 1], steps[i - 1]);
    }
  }

  /** All states of a run are as promised exactly when all its steps are orderly. */
  lemma RunSafeExactly(n: nat, states: seq<Sys>, steps: seq<Step>)
    requires n > 0 && IsRun(n, states, steps)
    ensures (forall i: nat :: i <= |steps| ==> Safe(states[i])) <==> OrderlyRun(states, steps)
  {
    if OrderlyRun(states, steps) {
      forall i: nat | i <= |steps|
        ensures Safe(states[i])
      {
        LifeCycleSafe(n, states, steps, i);
      }
    }
    if forall i: nat :: i <= |steps| ==> Safe(states[i]) {
      SafeMeansOrderly(n, states, steps, |steps|);
    }
  }

  /** In particular a connection that is down is watched exactly behind a startRead that came
      after its close. */
  lemma DownWatchedExactly(s: Sys, step: Step, c: nat)
    requires Inv(s) && Enabled(s, step) && c < |s.conns| && (Orderly(s, step) || step.UserStartRead?)
    ensures var r := Next(s, step);
      && Shaped(r) && c < |r.conns|
      && (r.conns[c].state == Disconnected && Watched(r, c) <==>
          step.UserStartRead? && step.c == c && s.conns[c].state == Disconnected)
  {
    var r := Next(s, step);
    if Orderly(s, step) {
      StepKeeps(s, step);
      if r.conns[c].state == Disconnected {
        DownUnwatched(r, c);
      }
    } else {
      assert Good(ViewOf(s, step.c));
      StartReadUpdates(s, step.c);
      if s.conns[c].state == Disconnected {
        DownUnwatched(s, c);
      }
    }
  }

  // startRead on a connection whose close is still on its way through loop 0.

  function ReadReady(l: nat, c: nat, n: int): Step {
    Handle(l, c, Revents(true, false, false, false, false), n, Reply([], false), false)
  }

  /** A connection that is down and not yet destroyed, in a loop that is handling events. */
  ghost predicate DownInHand(s: Sys, l: nat, c: nat) {
    && Inv(s) && l < |s.loops| && c < |s.conns| && s.conns[c].loop == l
    && s.loops[l].phase == Handling && Stages(s, c) in {Closed, Erased}
  }

  /** A connection that is down but that epoll watches again. */
  ghost predicate WatchedAgain(s: Sys, l: nat, c: nat) {
    && Shaped(s) && s.ok && l < |s.loops| && c < |s.conns| && s.conns[c].loop == l
    && s.conns[c].state == Disconnected && Watched(s, c)
  }

  lemma StartReadWatches(s: Sys, l: nat, c: nat)
    requires DownInHand(s, l, c)
    ensures var r := StartRead(s, c);
      && WatchedAgain(r, l, c) && r.conns[c].chan.fd == s.conns[c].chan.fd
      && SameTurn(s.loops[l], r.loops[l])
  {
    assert Good(ViewOf(s, c));
    InterestBitsIndependent(NONE_EVENT);
    HarmlessSetEvents(s, c, NONE_EVENT | READ_EVENT);
    var m := SetEvents(s, c, NONE_EVENT | READ_EVENT);
    WatchedIsAdded(m, c);
    assert StartRead(s, c) == SetReading(m, c, true);
  }

  lemma LateStartRead(s: Sys, l: nat, c: nat)
    requires DownInHand(s, l, c)
    ensures Enabled(s, UserStartRead(l, c)) && !Orderly(s, UserStartRead(l, c))
    ensures var r := Next(s, UserStartRead(l, c));
      && WatchedAgain(r, l, c) && r.conns[c].chan.fd == s.conns[c].chan.fd
      && SameTurn(s.loops[l], r.loops[l])
  {
    StartReadWatches(s, l, c);
    assert Next(s, UserStartRead(l, c)) == StartRead(s, c);
  }

  /** A startRead that comes after the close puts the channel back into epoll; when nothing
      else waits in the loop, the next poll may report it, and reading end-of-file closes the
      connection a second time. */
  lemma LateStartReadFails(s: Sys, l: nat, c: nat)
    requires DownInHand(s, l, c) && s.loops[l].active == {} && s.loops[l].pending == []
    ensures
      var s1 := Next(s, UserStartRead(l, c));
      && Enabled(s1, Swap(l))
      && var s2 := Next(s1, Swap(l));
      && Enabled(s2, EndBatch(l))
      && var s3 := Next(s2, EndBatch(l)); var ready := {s.conns[c].chan.fd};
      && Enabled(s3, PollReturns(l, ready))
      && var s4 := Next(s3, PollReturns(l, ready));
      && Enabled(s4, ReadReady(l, c, 0)) && s4.ok && !Next(s4, ReadReady(l, c, 0)).ok
  {
    LateStartRead(s, l, c);
    var s1 := Next(s, UserStartRead(l, c));
    var s3 := Next(Next(s1, Swap(l)), EndBatch(l));
    assert s3.conns == s1.conns && s3.loops[l].poller == s1.loops[l].poller;
    var fd := s.conns[c].chan.fd;
    var s4 := Next(s3, PollReturns(l, {fd}));
    assert c in s4.loops[l].active;
  }
}
