/**
 A connection that is down gets destroyed: by the end of the next turn of the accept
 loop it is out of the registry, and by the end of the turn of its own loop behind
 that one it has left its poller and nothing holds it any more.
 */
module LifeCycleProgress {
  import opened PollerSpec
  import opened ConnectionState
  import opened LifeCycle
  import opened LifeCycleSafety
  import opened LifeCycleRuns

  // ------------------------------------------- what an operation on `c` leaves alone

  /** Of other connections nothing changes, and of the batches nothing at all. */
  ghost predicate Beside(s: Sys, r: Sys, c: nat) {
    && Kept(s, r)
    && (forall d: nat :: d < |s.conns| && d != c ==> r.conns[d] == s.conns[d] && (d in r.registry <==> d in s.registry))
    && forall l: nat :: l < |s.loops| ==> r.loops[l].batch == s.loops[l].batch
  }

  lemma BesideTrans(s: Sys, m: Sys, r: Sys, c: nat)
    requires Beside(s, m, c) && Beside(m, r, c)
    ensures Beside(s, r, c)
  {
  }

  lemma CloseBeside(s: Sys, c: nat)
    requires Shaped(s) && c < |s.conns|
    ensures Beside(s, HandleClose(s, c), c)
  {
  }

  lemma {:induction false} SendsBeside(s: Sys, c: nat, sends: seq<Sent>)
    requires Shaped(s) && c < |s.conns|
    ensures Beside(s, Sends(s, c, sends), c)
    decreases |sends|
  {
    if sends != [] {
      var m := SendInLoop(s, c, sends[0]);
      SendsBeside(m, c, sends[1..]);
      BesideTrans(s, m, Sends(m, c, sends[1..]), c);
    }
  }

  lemma MessageBeside(s: Sys, c: nat, reply: Reply)
    requires Shaped(s) && c < |s.conns|
    ensures Beside(s, OnMessage(s, c, reply), c)
  {
    SendsBeside(s, c, reply.sends);
  }

  lemma ReadBeside(s: Sys, c: nat, n: int, reply: Reply)
    requires Shaped(s) && c < |s.conns|
    ensures Beside(s, HandleRead(s, c, n, reply), c)
  {
    MessageBeside(s, c, reply);
    CloseBeside(s, c);
  }

  lemma WriteBeside(s: Sys, c: nat, drained: bool)
    requires Shaped(s) && c < |s.conns|
    ensures Beside(s, HandleWrite(s, c, drained), c)
  {
  }

  lemma EventBeside(s: Sys, c: nat, ev: Revents, n: int, reply: Reply, drained: bool)
    requires Shaped(s) && c < |s.conns|
    ensures Beside(s, HandleEvent(s, c, ev, n, reply, drained), c)
  {
    CloseBeside(s, c);
    var s1 := if ev.hup && !ev.input then HandleClose(s, c) else s;
    ReadBeside(s1, c, n, reply);
    var s2 := if ev.input || ev.pri || ev.rdhup then HandleRead(s1, c, n, reply) else s1;
    BesideTrans(s, s1, s2, c);
    WriteBeside(s2, c, drained);
    var s3 := if ev.output then HandleWrite(s2, c, drained) else s2;
    BesideTrans(s, s2, s3, c);
  }

  lemma EstablishBeside(s: Sys, c: nat)
    requires Shaped(s) && c < |s.conns|
    ensures Beside(s, ConnectEstablished(s, c), c)
  {
  }

  lemma DestroyBeside(s: Sys, c: nat)
    requires Shaped(s) && c < |s.conns|
    ensures Beside(s, ConnectDestroyed(s, c), c)
  {
  }

  lemma TaskBeside(s: Sys, t: Task)
    requires Shaped(s) && t.c < |s.conns|
    ensures Beside(s, RunTask(s, t), t.c)
  {
    match t
    case Establish(c) => EstablishBeside(s, c);
    case Destroy(c) => DestroyBeside(s, c);
    case _ =>
  }

  // ------------------------------------------------------- steps past a connection

  /** The connection a step is about, if any. */
  predicate About(s: Sys, step: Step, c: nat) {
    match step
    case Handle(_, d, _, _, _, _) => d == c
    case IdleTimeout(_, d) => d == c
    case UserStartRead(_, d) => d == c
    case RunNext(l) => l < |s.loops| && s.loops[l].batch != [] && s.loops[l].batch[0].c == c
    case _ => false
  }

  /** A step about another connection passes `c` by. */
  lemma StepBeside(s: Sys, step: Step, c: nat)
    requires Inv(s) && Enabled(s, step) && c < |s.conns| && !About(s, step, c)
    ensures var r := Next(s, step);
      c < |r.conns| && r.conns[c] == s.conns[c] && (c in r.registry <==> c in s.registry)
  {
    match step
    case Handle(l, d, ev, n, reply, drained) => EventBeside(Take(s, l, d), d, ev, n, reply, drained);
    case RunNext(l) => TaskBeside(Pop(s, l), s.loops[l].batch[0]);
    case _ =>
  }

  lemma RunBatchKept(s: Sys, k: nat, l: nat, t: Task)
    requires Inv(s) && Enabled(s, RunNext(k)) && l < |s.loops| && t in s.loops[l].batch
    ensures var r := Next(s, RunNext(k));
      l < |r.loops| && (t in r.loops[l].batch || (k == l && s.loops[l].batch[0] == t))
  {
    var m := Pop(s, k);
    TaskBeside(m, s.loops[k].batch[0]);
    assert s.loops[k].batch == [s.loops[k].batch[0]] + s.loops[k].batch[1..];
    assert t in m.loops[l].batch || (k == l && s.loops[l].batch[0] == t);
  }

  /** A functor taken in hand stays in its batch until it is run. */
  lemma BatchKept(s: Sys, step: Step, l: nat, t: Task)
    requires Inv(s) && Enabled(s, step) && l < |s.loops| && t in s.loops[l].batch
    ensures var r := Next(s, step);
      l < |r.loops| && (t in r.loops[l].batch || (step == RunNext(l) && s.loops[l].batch[0] == t))
  {
    match step
    case Handle(k, d, ev, n, reply, drained) => EventBeside(Take(s, k, d), d, ev, n, reply, drained);
    case RunNext(k) => RunBatchKept(s, k, l, t);
    case _ =>
  }

  ghost predicate DownIn(s: Sys, c: nat) { Inv(s) && c < |s.conns| && s.conns[c].state == Disconnected }

  /** Of the functors naming a connection that is down only its removal and its destruction
      are left. */
  lemma DownTask(s: Sys, l: nat, c: nat)
    requires DownIn(s, c) && Enabled(s, RunNext(l)) && s.loops[l].batch[0].c == c
    ensures var t := s.loops[l].batch[0]; t == RemoveInLoop(c) || (t == Destroy(c) && Stages(s, c) == Erased)
  {
    PopEffect(s, l);
    assert Good(ViewOf(s, c));
  }

  /** A connection that is down stays down, and moves on only towards its destruction. */
  ghost predicate MovesOn(s: Sys, r: Sys, c: nat)
    requires c < |s.conns|
  {
    && c < |r.conns| && r.conns[c].state == Disconnected && r.conns[c].loop == s.conns[c].loop
    && (c in r.registry ==> c in s.registry)
    && (s.conns[c].chan.index == New ==> r.conns[c].chan.index == New)
  }

  lemma TaskMovesOn(s: Sys, l: nat, c: nat)
    requires DownIn(s, c) && Enabled(s, RunNext(l)) && s.loops[l].batch[0].c == c
    ensures var r := Next(s, RunNext(l));
      && MovesOn(s, r, c)
      && (s.loops[l].batch[0] == RemoveInLoop(c) ==> c !in r.registry)
      && (s.loops[l].batch[0] == Destroy(c) ==> r.conns[c].chan.index == New)
  {
    DownTask(s, l, c);
  }

  lemma StepMovesOn(s: Sys, step: Step, c: nat)
    requires DownIn(s, c) && Enabled(s, step) && Orderly(s, step)
    ensures DownIn(Next(s, step), c) && MovesOn(s, Next(s, step), c)
  {
    StepKeeps(s, step);
    assert Good(ViewOf(s, c));
    if !About(s, step, c) {
      StepBeside(s, step, c);
    } else if step.RunNext? {
      TaskMovesOn(s, step.l, c);
    }
  }

  // ------------------------------------------------ the accept loop, then its own loop

  /** Its removal has been taken in hand, if it is still to come. */
  ghost predicate Removing(s: Sys, c: nat) {
    DownIn(s, c) && (c in s.registry ==> RemoveInLoop(c) in s.loops[BASE].batch)
  }

  /** It is out of the registry, and its destruction has been taken in hand. */
  ghost predicate Destroying(s: Sys, c: nat) {
    DownIn(s, c) && c !in s.registry &&
    (s.conns[c].chan.index != New ==> Destroy(c) in s.loops[s.conns[c].loop].batch)
  }

  lemma SwapRemoves(s: Sys, c: nat)
    requires DownIn(s, c) && Enabled(s, Swap(BASE))
    ensures Removing(Next(s, Swap(BASE)), c)
  {
    SwapKeeps(s, BASE);
    assert Good(ViewOf(s, c));
  }

  lemma SwapDestroys(s: Sys, c: nat)
    requires DownIn(s, c) && c !in s.registry && Enabled(s, Swap(s.conns[c].loop))
    ensures Destroying(Next(s, Swap(s.conns[c].loop)), c)
  {
    SwapKeeps(s, s.conns[c].loop);
    assert Good(ViewOf(s, c));
  }

  lemma StepRemoving(s: Sys, step: Step, c: nat)
    requires Removing(s, c) && Enabled(s, step) && Orderly(s, step)
    ensures Removing(Next(s, step), c)
  {
    StepMovesOn(s, step, c);
    if c in s.registry {
      BatchKept(s, step, BASE, RemoveInLoop(c));
      if step == RunNext(BASE) && s.loops[BASE].batch[0] == RemoveInLoop(c) {
        TaskMovesOn(s, BASE, c);
      }
    }
  }

  lemma StepDestroying(s: Sys, step: Step, c: nat)
    requires Destroying(s, c) && Enabled(s, step) && Orderly(s, step)
    ensures Destroying(Next(s, step), c)
  {
    StepMovesOn(s, step, c);
    var l := s.conns[c].loop;
    if s.conns[c].chan.index != New {
      BatchKept(s, step, l, Destroy(c));
      if step == RunNext(l) && s.loops[l].batch[0] == Destroy(c) {
        TaskMovesOn(s, l, c);
      }
    }
  }

  /** Something holds a connection exactly until it has been destroyed. */
  lemma OwnedExactly(s: Sys, c: nat)
    requires Inv(s) && c < |s.conns|
    ensures Owned(s, c) <==> Destroyed !in s.conns[c].history
  {
    assert Good(ViewOf(s, c));
    HistoryMembers(s.conns[c].history, Stages(s, c));
    if Stages(s, c) != Gone {
      NotGoneOwned(s, c);
    } else {
      forall l: nat, t: Task | l < |s.loops| && (t in s.loops[l].batch || t in s.loops[l].pending)
        ensures t.c != c
      {
        assert QueuePlaced(s.conns, s.loops[l].batch, l) && QueuePlaced(s.conns, s.loops[l].pending, l);
        assert Count(s.loops[l], t) > 0;
      }
    }
  }

  // ---------------------------------------------------------------------- whole runs

  lemma {:induction false} StaysDown(n: nat, states: seq<Sys>, steps: seq<Step>, c: nat, i: nat, j: nat)
    requires n > 0 && IsRun(n, states, steps) && OrderlyRun(states, steps) && i <= j <= |steps|
    requires DownIn(states[i], c)
    ensures DownIn(states[j], c) && MovesOn(states[i], states[j], c)
    decreases j
  {
    if i < j {
      StaysDown(n, states, steps, c, i, j - 1);
      StepMovesOn(states[j - 1], steps[j - 1], c);
    }
  }

  lemma {:induction false} StaysRemoving(n: nat, states: seq<Sys>, steps: seq<Step>, c: nat, i: nat, j: nat)
    requires n > 0 && IsRun(n, states, steps) && OrderlyRun(states, steps) && i <= j <= |steps|
    requires Removing(states[i], c)
    ensures Removing(states[j], c)
    decreases j
  {
    if i < j {
      StaysRemoving(n, states, steps, c, i, j - 1);
      StepRemoving(states[j - 1], steps[j - 1], c);
    }
  }

  lemma {:induction false} StaysDestroying(n: nat, states: seq<Sys>, steps: seq<Step>, c: nat, i: nat, j: nat)
    requires n > 0 && IsRun(n, states, steps) && OrderlyRun(states, steps) && i <= j <= |steps|
    requires Destroying(states[i], c)
    ensures Destroying(states[j], c) && states[j].conns[c].loop == states[i].conns[c].loop
    decreases j
  {
    if i < j {
      StaysDestroying(n, states, steps, c, i, j - 1);
      StepDestroying(states[j - 1], steps[j - 1], c);
      StepMovesOn(states[j - 1], steps[j - 1], c);
    }
  }

  /** Behind the swap in step `i` loop `l` has come to the end of that turn in state `j`. */
  predicate FullTurn(states: seq<Sys>, steps: seq<Step>, l: nat, i: nat, j: nat) {
    && i < j < |states| && i < |steps| && steps[i] == Swap(l)
    && l < |states[j].loops| && states[j].loops[l].phase == Polling
  }

  /** A connection that is down is out of the registry once the accept loop has made a turn. */
  lemma DownGetsErased(n: nat, states: seq<Sys>, steps: seq<Step>, c: nat, i: nat, a: nat, b: nat)
    requires n > 0 && IsRun(n, states, steps) && OrderlyRun(states, steps)
    requires i <= a < b <= |steps| && FullTurn(states, steps, BASE, a, b)
    requires c < |states[i].conns| && states[i].conns[c].state == Disconnected
    ensures DownIn(states[b], c) && c !in states[b].registry && states[b].conns[c].loop == states[i].conns[c].loop
  {
    RunInv(n, states, steps, i);
    StaysDown(n, states, steps, c, i, a);
    SwapRemoves(states[a], c);
    StaysRemoving(n, states, steps, c, a + 1, b);
    StaysDown(n, states, steps, c, i, b);
  }

  lemma DestroyedAt(s: Sys, c: nat)
    requires DownIn(s, c) && c !in s.registry && s.conns[c].chan.index == New
    ensures Destroyed in s.conns[c].history && !Owned(s, c)
  {
    assert Good(ViewOf(s, c));
    HistoryMembers(s.conns[c].history, Gone);
    OwnedExactly(s, c);
  }

  /** A connection that is down and out of the registry has been destroyed once its own loop
      has made a turn: for good, and nothing holds it any more. */
  lemma ErasedGetsDestroyed(n: nat, states: seq<Sys>, steps: seq<Step>, c: nat, b: nat, d: nat, e: nat, j: nat)
    requires n > 0 && IsRun(n, states, steps) && OrderlyRun(states, steps) && b <= d < e <= j <= |steps|
    requires DownIn(states[b], c) && c !in states[b].registry && FullTurn(states, steps, states[b].conns[c].loop, d, e)
    ensures c < |states[j].conns| && Destroyed in states[j].conns[c].history && !Owned(states[j], c)
  {
    StaysDown(n, states, steps, c, b, d);
    SwapDestroys(states[d], c);
    StaysDestroying(n, states, steps, c, d + 1, e);
    assert states[e].conns[c].chan.index == New;
    StaysDown(n, states, steps, c, e, j);
    DestroyedAt(states[j], c);
  }

  /** A connection that is down has been destroyed once the accept loop has made a turn, and
      behind that its own loop. */
  lemma DownGetsDestroyed(n: nat, states: seq<Sys>, steps: seq<Step>, c: nat, i: nat, a: nat, b: nat, d: nat, e: nat, j: nat)
    requires n > 0 && IsRun(n, states, steps) && OrderlyRun(states, steps) && i <= a < b <= d < e <= j <= |steps|
    requires c < |states[i].conns| && states[i].conns[c].state == Disconnected
    requires FullTurn(states, steps, BASE, a, b) && FullTurn(states, steps, states[i].conns[c].loop, d, e)
    ensures c < |states[j].conns| && Destroyed in states[j].conns[c].history && !Owned(states[j], c)
  {
    DownGetsErased(n, states, steps, c, i, a, b);
    ErasedGetsDestroyed(n, states, steps, c, b, d, e, j);
  }
}
