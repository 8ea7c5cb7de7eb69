/**
 The event loop's task queue and its wake-up protocol.

 Any thread may queue a functor: it appends under the mutex and then, in a
 separate step, writes the eventfd.  The loop thread cycles through poll, event
 handling, swapping the queue and running the batch.  The state machine lets
 every step of every thread interleave.
 */
module EventLoopSpec {
  import opened Wrappers

  type Functor = nat
  type Thread = nat

  const LOOP_THREAD: Thread := 0

  // An eventfd counter saturates: at its maximum a write is refused.
  const MAX_COUNTER: nat := 0xFFFF_FFFF_FFFF_FFFE

  // NotStarted and Stopped: outside loop().
  datatype Phase = NotStarted | AtPoll | Handling | Running | Stopped

  /** `inFlight`: threads between pushing (or setting quit_) and writing the eventfd.
      `ready`: poll reported the eventfd and its handler has not run yet.  Outside the
      source's fields: `executed` and `log`, the functors run and queued so far, in order;
      `taken`, how many had been queued at the last swap; `early`, whether the loop thread
      queued something while outside loop() that has not been swapped out since. */
  datatype Loop = Loop(
    phase: Phase, pending: seq<Functor>, batch: seq<Functor>, calling: bool, quit: bool,
    counter: nat, inFlight: set<Thread>, ready: bool,
    executed: seq<Functor>, log: seq<Functor>, taken: nat, early: bool)

  const INITIAL := Loop(NotStarted, [], [], false, false, 0, {}, false, [], [], 0, false)

  datatype Step =
    | Push(t: Thread, f: Functor)
    | SetQuit(t: Thread)
    | Wake(t: Thread)
    | Start
    | PollReturns(woken: bool)
    | ReadEventfd
    | Swap
    | RunNext
    | EndBatch

  predicate InLoop(s: Loop) { s.phase in {AtPoll, Handling, Running} }

  /** The loop thread acts only where it is not blocked in poll and not inside weakup. */
  predicate LoopThreadFree(s: Loop) { s.phase != AtPoll && LOOP_THREAD !in s.inFlight }

  predicate Enabled(s: Loop, step: Step) {
    match step
    case Push(t, _) => t !in s.inFlight && (t == LOOP_THREAD ==> s.phase != AtPoll)
    case SetQuit(t) => t !in s.inFlight && (t == LOOP_THREAD ==> s.phase != AtPoll)
    case Wake(t) => t in s.inFlight
    case Start => s.phase in {NotStarted, Stopped} && LoopThreadFree(s)
    case PollReturns(woken) => s.phase == AtPoll && (woken ==> s.counter > 0)
    case ReadEventfd => s.phase == Handling && s.ready && LoopThreadFree(s)
    case Swap => s.phase == Handling && !s.ready && LoopThreadFree(s)
    case RunNext => s.phase == Running && s.batch != [] && LoopThreadFree(s)
    case EndBatch => s.phase == Running && s.batch == [] && LoopThreadFree(s)
  }

  /** queueInLoop, the locked part; the caller goes on to weakup unless it is the loop
      thread outside a batch. */
  function PushStep(s: Loop, t: Thread, f: Functor): Loop {
    s.(pending := s.pending + [f], log := s.log + [f],
       inFlight := if t != LOOP_THREAD || s.calling then s.inFlight + {t} else s.inFlight,
       early := s.early || (t == LOOP_THREAD && !InLoop(s)))
  }

  function Next(s: Loop, step: Step): Loop
    requires Enabled(s, step)
  {
    match step
    case Push(t, f) => PushStep(s, t, f)
    case SetQuit(t) => s.(quit := true, inFlight := if t != LOOP_THREAD then s.inFlight + {t} else s.inFlight)
    case Wake(t) => s.(counter := if s.counter < MAX_COUNTER then s.counter + 1 else s.counter, inFlight := s.inFlight - {t})
    case Start => s.(phase := AtPoll, quit := false)
    case PollReturns(woken) => s.(phase := Handling, ready := woken)
    case ReadEventfd => s.(counter := 0, ready := false)
    case Swap => s.(phase := Running, calling := true, batch := s.pending, pending := [],
                    taken := |s.log|, early := false)
    case RunNext => s.(executed := s.executed + [s.batch[0]], batch := s.batch[1..])
    case EndBatch => s.(calling := false, phase := if s.quit then Stopped else AtPoll)
  }

  // ------------------------------------------------------------------- invariant

  /** The eventfd is readable, or some thread is on its way to make it so. */
  predicate WakePending(s: Loop) { s.counter > 0 || s.inFlight != {} }

  predicate Inv(s: Loop) {
    // every functor queued is run once, in queue order
    && s.executed + s.batch + s.pending == s.log
    // work never waits behind a poll that nothing will end
    && (s.phase != Handling && s.pending != [] && !s.early ==> WakePending(s))
    && (s.phase == AtPoll && s.quit ==> WakePending(s))
    && (s.early ==> s.pending != [])
    // a batch takes everything queued before its swap
    && (s.phase != Running ==> s.batch == [])
    && |s.executed| + |s.batch| == s.taken
    && (s.calling <==> s.phase == Running)
    && (s.ready ==> s.phase == Handling)
  }

  lemma StepKeeps(s: Loop, step: Step)
    requires Inv(s) && Enabled(s, step)
    ensures Inv(Next(s, step))
  {
    var r := Next(s, step);
    match step
    case Push(t, f) =>
      assert r.executed + r.batch + r.pending == (s.executed + s.batch + s.pending) + [f];
      if t != LOOP_THREAD || s.calling {
        assert t in r.inFlight;
      }
    case SetQuit(t) =>
      if t != LOOP_THREAD {
        assert t in r.inFlight;
      }
    case Swap =>
      assert |s.log| == |s.executed| + |s.pending|;
    case RunNext =>
      assert s.batch == [s.batch[0]] + s.batch[1..];
      assert r.executed + r.batch + r.pending == s.executed + ([s.batch[0]] + s.batch[1..]) + s.pending;
    case Wake(_) =>
    case Start =>
    case PollReturns(_) =>
    case ReadEventfd =>
    case EndBatch =>
  }

  /** Any interleaving of enabled steps, from a loop just constructed. */
  ghost predicate IsRun(states: seq<Loop>, steps: seq<Step>) {
    && |states| == |steps| + 1 && states[0] == INITIAL
    && forall i :: 0 <= i < |steps| ==> Enabled(states[i], steps[i]) && states[i + 1] == Next(states[i], steps[i])
  }

  lemma {:induction false} RunInv(states: seq<Loop>, steps: seq<Step>, i: nat)
    requires IsRun(states, steps) && i <= |steps|
    ensures Inv(states[i])
  {
    if i > 0 {
      RunInv(states, steps, i - 1);
      StepKeeps(states[i - 1], steps[i - 1]);
    }
  }

  /** Poll cannot return for the eventfd, and no thread is about to change that. */
  predicate Blocked(s: Loop) { s.phase == AtPoll && !WakePending(s) }

  /** The loop thread queues functors only inside loop(). */
  ghost predicate PushesInsideLoop(states: seq<Loop>, steps: seq<Step>)
    requires |states| == |steps| + 1
  {
    forall i :: 0 <= i < |steps| && steps[i].Push? && steps[i].t == LOOP_THREAD ==> InLoop(states[i])
  }

  lemma {:induction false} NeverEarly(states: seq<Loop>, steps: seq<Step>, i: nat)
    requires IsRun(states, steps) && PushesInsideLoop(states, steps) && i <= |steps|
    ensures !states[i].early
  {
    if i > 0 {
      NeverEarly(states, steps, i - 1);
    }
  }

  /** No lost wake-up: over every interleaving, a loop that nothing will wake has no work
      queued and has not been told to quit. */
  lemma NoLostWakeup(states: seq<Loop>, steps: seq<Step>, i: nat)
    requires IsRun(states, steps) && PushesInsideLoop(states, steps) && i <= |steps|
    ensures Blocked(states[i]) ==> states[i].pending == [] && !states[i].quit
  {
    RunInv(states, steps, i);
    NeverEarly(states, steps, i);
  }

  /** Without any hypothesis on the pushes: what waits behind a poll that nothing will end
      is exactly what the loop thread queued outside loop(), if it did. */
  lemma BlockedExactly(states: seq<Loop>, steps: seq<Step>, i: nat)
    requires IsRun(states, steps) && i <= |steps|
    ensures var s := states[i]; Blocked(s) ==> (s.pending == [] <==> !s.early) && !s.quit
  {
    RunInv(states, steps, i);
  }

  /** The hypothesis is needed: wherever no wake-up is under way, a functor that the loop
      thread queues outside loop() waits behind a blocked poll. */
  lemma EarlyPushBlocks(s: Loop, f: Functor)
    requires !InLoop(s) && !WakePending(s) && !s.calling
    ensures Enabled(s, Push(LOOP_THREAD, f))
    ensures var s1 := Next(s, Push(LOOP_THREAD, f));
      Enabled(s1, Start) && Blocked(Next(s1, Start)) && f in Next(s1, Start).pending
  {
    var s1 := Next(s, Push(LOOP_THREAD, f));
    assert s1.pending[|s.pending|] == f;
  }

  // What a list of steps says of itself, last step last.

  /** The functors pushed, in the order of their pushes. */
  function Pushed(steps: seq<Step>): seq<Functor> {
    if steps == [] then []
    else
      var last := steps[|steps| - 1];
      Pushed(steps[..|steps| - 1]) + if last.Push? then [last.f] else []
  }

  /** How many functors were run. */
  function Ran(steps: seq<Step>): nat {
    if steps == [] then 0 else Ran(steps[..|steps| - 1]) + if steps[|steps| - 1].RunNext? then 1 else 0
  }

  /** The loop has been told to quit since it was last started. */
  predicate QuitSince(steps: seq<Step>) {
    steps != [] &&
    var last := steps[|steps| - 1];
    last.SetQuit? || (!last.Start? && QuitSince(steps[..|steps| - 1]))
  }

  /** How often the eventfd was written since it was last read. */
  function Wakes(steps: seq<Step>): nat {
    if steps == [] || steps[|steps| - 1].ReadEventfd? then 0
    else Wakes(steps[..|steps| - 1]) + if steps[|steps| - 1].Wake? then 1 else 0
  }

  lemma PrefixStep(steps: seq<Step>, i: nat)
    requires 0 < i <= |steps|
    ensures steps[..i][..i - 1] == steps[..i - 1] && steps[..i][i - 1] == steps[i - 1]
  {
  }

  lemma StepLogs(s: Loop, step: Step)
    requires Enabled(s, step)
    ensures var r := Next(s, step);
      && r.log == s.log + (if step.Push? then [step.f] else [])
      && |r.executed| == |s.executed| + (if step.RunNext? then 1 else 0)
  {
  }

  lemma {:induction false} LogIs(states: seq<Loop>, steps: seq<Step>, i: nat)
    requires IsRun(states, steps) && i <= |steps|
    ensures states[i].log == Pushed(steps[..i]) && |states[i].executed| == Ran(steps[..i])
  {
    if i > 0 {
      LogIs(states, steps, i - 1);
      PrefixStep(steps, i);
      StepLogs(states[i - 1], steps[i - 1]);
    }
  }

  /** FIFO, exactly once: what has run, what the current batch still holds and what is
      queued are together all functors in the order of their pushes; and each run of a functor
      was the run of the next one. */
  lemma FifoExactlyOnce(states: seq<Loop>, steps: seq<Step>, i: nat)
    requires IsRun(states, steps) && i <= |steps|
    ensures var s := states[i]; var pushed := Pushed(steps[..i]);
      && s.executed + s.batch + s.pending == s.log == pushed
      && Ran(steps[..i]) <= |pushed| && s.executed == pushed[..Ran(steps[..i])]
  {
    RunInv(states, steps, i);
    LogIs(states, steps, i);
    var s := states[i];
    assert s.log == s.executed + (s.batch + s.pending);
  }

  lemma {:induction false} QuitExactly(states: seq<Loop>, steps: seq<Step>, i: nat)
    requires IsRun(states, steps) && i <= |steps|
    ensures states[i].quit <==> QuitSince(steps[..i])
    ensures states[i].phase == Stopped ==> QuitSince(steps[..i])
  {
    if i > 0 {
      QuitExactly(states, steps, i - 1);
      PrefixStep(steps, i);
    }
  }

  /** The loop goes on exactly until it is told to quit: at the end of a batch it goes back to
      poll when nobody has called quit since it was started, and else it stops; nowhere else
      does it stop. */
  lemma StopsExactly(states: seq<Loop>, steps: seq<Step>, i: nat)
    requires IsRun(states, steps) && i < |steps|
    ensures steps[i] == EndBatch ==> states[i + 1].phase == if QuitSince(steps[..i]) then Stopped else AtPoll
    ensures states[i + 1].phase == Stopped && states[i].phase != Stopped ==> steps[i] == EndBatch
    ensures states[i + 1].phase == Stopped ==> QuitSince(steps[..i + 1])
  {
    QuitExactly(states, steps, i);
    QuitExactly(states, steps, i + 1);
  }

  /** The eventfd counts its writes since the last read, up to its maximum. */
  lemma {:induction false} CounterExactly(states: seq<Loop>, steps: seq<Step>, i: nat)
    requires IsRun(states, steps) && i <= |steps|
    ensures var w := Wakes(steps[..i]);
      states[i].counter == if w < 0xFFFF_FFFF_FFFF_FFFE then w else 0xFFFF_FFFF_FFFF_FFFE
  {
    if i > 0 {
      CounterExactly(states, steps, i - 1);
      PrefixStep(steps, i);
    }
  }

  // ------------------------------------------------------------ steps that do happen

  /** The state some steps lead to, if each is enabled when its turn comes. */
  function Run(s: Loop, steps: seq<Step>): Option<Loop>
    decreases |steps|
  {
    if steps == [] then Some(s)
    else if Enabled(s, steps[0]) then Run(Next(s, steps[0]), steps[1..]) else None
  }

  function RunAll(n: nat): (steps: seq<Step>)
    ensures |steps| == n
  {
    if n == 0 then [] else [RunNext] + RunAll(n - 1)
  }

  lemma {:induction false} RunConcat(s: Loop, first: seq<Step>, second: seq<Step>)
    ensures Run(s, first + second) == match Run(s, first) case Some(m) => Run(m, second) case None => None
    decreases |first|
  {
    if first == [] {
      assert first + second == second;
    } else {
      assert (first + second)[1..] == first[1..] + second;
      if Enabled(s, first[0]) {
        RunConcat(Next(s, first[0]), first[1..], second);
      }
    }
  }

  /** A batch runs to its end. */
  lemma {:induction false} BatchRuns(s: Loop)
    requires s.phase == Running && LOOP_THREAD !in s.inFlight
    ensures Run(s, RunAll(|s.batch|)) == Some(s.(executed := s.executed + s.batch, batch := []))
    decreases |s.batch|
  {
    if s.batch == [] {
      assert s.executed + s.batch == s.executed;
    } else {
      var r := Next(s, RunNext);
      BatchRuns(r);
      assert RunAll(|s.batch|)[1..] == RunAll(|r.batch|) && RunAll(|s.batch|)[0] == RunNext;
      assert r.executed + r.batch == s.executed + s.batch;
    }
  }

  /** The turn up to its batch: poll returns, the eventfd is read if it was reported, and the
      queue is taken. */
  function TurnBegin(woken: bool): seq<Step> {
    if woken then [PollReturns(true), ReadEventfd, Swap] else [PollReturns(false), Swap]
  }

  lemma BeginRuns(s: Loop, woken: bool)
    requires s.phase == AtPoll && (woken ==> s.counter > 0) && LOOP_THREAD !in s.inFlight
    ensures var r := Run(s, TurnBegin(woken));
      && r.Some? && r.value.phase == Running && r.value.batch == s.pending && r.value.pending == []
      && r.value.counter == (if woken then 0 else s.counter)
      && r.value.executed == s.executed && r.value.quit == s.quit && r.value.inFlight == s.inFlight
  {
    var s1 := Next(s, PollReturns(woken));
    if woken {
      var s2 := Next(s1, ReadEventfd);
      var begin := TurnBegin(true);
      assert begin[1..] == [ReadEventfd, Swap] && begin[1..][1..] == [Swap] && begin[1..][1..][1..] == [];
      assert Run(s2, [Swap]) == Some(Next(s2, Swap)) && Run(s1, [ReadEventfd, Swap]) == Some(Next(s2, Swap));
    } else {
      assert TurnBegin(false)[1..] == [Swap] && [Swap][1..] == [];
      assert Run(s1, [Swap]) == Some(Next(s1, Swap));
    }
  }

  /** A turn, undisturbed: the loop takes the queue, runs all of it in order, and is back at
      poll, or stops if it has been told to; if it was woken it has read the eventfd. */
  lemma TurnRuns(s: Loop, woken: bool)
    requires s.phase == AtPoll && (woken ==> s.counter > 0) && LOOP_THREAD !in s.inFlight
    ensures var r := Run(s, TurnBegin(woken) + RunAll(|s.pending|) + [EndBatch]);
      && r.Some? && r.value.executed == s.executed + s.pending && r.value.pending == [] == r.value.batch
      && r.value.counter == (if woken then 0 else s.counter) && r.value.phase == (if s.quit then Stopped else AtPoll)
      && r.value.inFlight == s.inFlight && r.value.quit == s.quit
  {
    BeginRuns(s, woken);
    var s3 := Run(s, TurnBegin(woken)).value;
    BatchRuns(s3);
    var s4 := s3.(executed := s3.executed + s3.batch, batch := []);
    assert Run(s4, [EndBatch]) == Some(Next(s4, EndBatch)) by { assert [EndBatch][1..] == []; }
    RunConcat(s, TurnBegin(woken), RunAll(|s.pending|));
    RunConcat(s, TurnBegin(woken) + RunAll(|s.pending|), [EndBatch]);
  }

  /** quit from another thread: the loop is told and woken. */
  lemma QuitWakes(s: Loop, t: Thread)
    requires t != LOOP_THREAD && t !in s.inFlight
    ensures var r := Run(s, [SetQuit(t), Wake(t)]);
      && r.Some? && r.value.quit && r.value.counter > 0 && r.value.inFlight == s.inFlight
      && r.value.phase == s.phase && r.value.pending == s.pending && r.value.executed == s.executed
  {
    var s1 := Next(s, SetQuit(t));
    assert [SetQuit(t), Wake(t)][1..] == [Wake(t)] && [Wake(t)][1..] == [];
    assert Run(s1, [Wake(t)]) == Some(Next(s1, Wake(t)));
    assert s.inFlight + {t} - {t} == s.inFlight;
  }

  /** The loop thread itself is woken exactly for what it queues while it runs a batch, for only
      then will it poll before it looks at the queue; and not when it tells itself to quit. */
  lemma OwnThreadWakes(s: Loop, f: Functor)
    requires Inv(s) && s.phase != AtPoll && LOOP_THREAD !in s.inFlight
    ensures Enabled(s, Push(LOOP_THREAD, f)) && Enabled(s, SetQuit(LOOP_THREAD))
    ensures var r := Next(s, Push(LOOP_THREAD, f));
      && r.pending == s.pending + [f] && r.phase == s.phase
      && r.inFlight == if s.phase == Running then s.inFlight + {LOOP_THREAD} else s.inFlight
    ensures Next(s, SetQuit(LOOP_THREAD)) == s.(quit := true)
  {
  }

  /** queueInLoop from another thread: the functor is queued last and the loop is woken. */
  lemma PushWakes(s: Loop, t: Thread, f: Functor)
    requires t != LOOP_THREAD && t !in s.inFlight
    ensures var r := Run(s, [Push(t, f), Wake(t)]);
      && r.Some? && r.value.pending == s.pending + [f] && r.value.counter > 0 && r.value.inFlight == s.inFlight
      && r.value.phase == s.phase && r.value.executed == s.executed && r.value.quit == s.quit
  {
    var s1 := Next(s, Push(t, f));
    assert [Push(t, f), Wake(t)][1..] == [Wake(t)] && [Wake(t)][1..] == [];
    assert Run(s1, [Wake(t)]) == Some(Next(s1, Wake(t)));
    assert s.inFlight + {t} - {t} == s.inFlight;
  }

  lemma StepGrows(s: Loop, step: Step)
    requires Inv(s) && Enabled(s, step)
    ensures s.log <= Next(s, step).log && s.taken <= Next(s, step).taken
  {
    assert |s.log| == |s.executed| + |s.batch| + |s.pending|;
  }

  lemma PrefixTrans(a: seq<Functor>, b: seq<Functor>, c: seq<Functor>)
    requires a <= b <= c
    ensures a <= c
  {
    assert a == b[..|a|] == c[..|a|];
  }

  lemma {:induction false} LogGrows(states: seq<Loop>, steps: seq<Step>, i: nat, j: nat)
    requires IsRun(states, steps) && i <= j <= |steps|
    ensures states[i].log <= states[j].log && states[i].taken <= states[j].taken
    decreases j
  {
    if i < j {
      LogGrows(states, steps, i, j - 1);
      RunInv(states, steps, j - 1);
      StepGrows(states[j - 1], steps[j - 1]);
      PrefixTrans(states[i].log, states[j - 1].log, states[j].log);
    }
  }

  /** One turn suffices: when the loop is back at poll (or has stopped) after a swap,
      everything queued before that swap has run. */
  lemma TurnDrainsQueue(states: seq<Loop>, steps: seq<Step>, i: nat, j: nat)
    requires IsRun(states, steps) && i < j <= |steps| && steps[i] == Swap
    requires states[j].phase in {AtPoll, Stopped}
    ensures states[i].log <= states[j].executed
  {
    RunInv(states, steps, i);
    RunInv(states, steps, j);
    LogGrows(states, steps, i, j);
    LogGrows(states, steps, i + 1, j);
    var s := states[j];
    assert s.executed + [] + s.pending == s.log;
    assert s.executed == s.log[..|s.executed|];
    assert |states[i].log| == states[i + 1].taken <= s.taken;
  }
}

/** The loop thread's own methods, in place. */
module EventLoops {
  import opened EventLoopSpec

  /** An eventfd counter once it has been written. */
  function Written(counter: nat): nat { if counter < 0xFFFF_FFFF_FFFF_FFFE then counter + 1 else counter }

  class EventLoop {
    var pendingFunctors: seq<Functor>
    var callingPendingFunctor: bool
    var quit: bool
    var wakeups: nat             // the eventfd counter
    var executed: seq<Functor>   // functors run so far

    constructor ()
      ensures pendingFunctors == [] && !callingPendingFunctor && !quit && wakeups == 0 && executed == []
    {
      pendingFunctors, callingPendingFunctor, quit, wakeups, executed := [], false, false, 0, [];
    }

    method Weakup()
      modifies this`wakeups
      ensures wakeups == Written(old(wakeups)) > 0
    {
      if wakeups < MAX_COUNTER {
        wakeups := wakeups + 1;
      }
    }

    method HandleRead()
      modifies this`wakeups
      ensures wakeups == 0
    {
      wakeups := 0;
    }

    method QueueInLoop(cb: Functor, inLoopThread: bool)
      modifies this`pendingFunctors, this`wakeups
      ensures pendingFunctors == old(pendingFunctors) + [cb]
      ensures wakeups == if !inLoopThread || callingPendingFunctor then Written(old(wakeups)) else old(wakeups)
    {
      pendingFunctors := pendingFunctors + [cb];
      if !inLoopThread || callingPendingFunctor {
        Weakup();
      }
    }

    method Quit(inLoopThread: bool)
      modifies this`quit, this`wakeups
      ensures quit && wakeups == if inLoopThread then old(wakeups) else Written(old(wakeups))
    {
      quit := true;
      if !inLoopThread {
        Weakup();
      }
    }

    /** Runs the functors queued when it is called, and only those.  While the k-th one
        runs it queues `queues(k)`, and other threads queue `others(k)`: all of these stay
        for the next turn, and the loop will be woken for them. */
    method DoPendingFunctors(queues: nat -> seq<Functor>, others: nat -> seq<Functor>)
      modifies this
      ensures executed == old(executed) + old(pendingFunctors)
      ensures pendingFunctors == Arrivals(queues, others, |old(pendingFunctors)|)
      ensures wakeups >= old(wakeups) && (pendingFunctors != [] ==> wakeups > 0)
      ensures !callingPendingFunctor && quit == old(quit)
    {
      callingPendingFunctor := true;
      var list := pendingFunctors;
      pendingFunctors := [];
      var k := 0;
      while k < |list|
        invariant 0 <= k <= |list| && list == old(pendingFunctors) && callingPendingFunctor && quit == old(quit)
        invariant executed == old(executed) + list[..k]
        invariant pendingFunctors == Arrivals(queues, others, k)
        invariant wakeups >= old(wakeups) && (pendingFunctors != [] ==> wakeups > 0)
      {
        executed := executed + [list[k]];
        QueueAll(queues(k), true);
        QueueAll(others(k), false);
        k := k + 1;
      }
      assert list[..k] == list;
      callingPendingFunctor := false;
    }

    method QueueAll(cbs: seq<Functor>, inLoopThread: bool)
      requires callingPendingFunctor
      modifies this`pendingFunctors, this`wakeups
      ensures pendingFunctors == old(pendingFunctors) + cbs
      ensures wakeups >= old(wakeups) && (cbs != [] ==> wakeups > 0)
    {
      var i := 0;
      while i < |cbs|
        invariant 0 <= i <= |cbs|
        invariant pendingFunctors == old(pendingFunctors) + cbs[..i]
        invariant wakeups >= old(wakeups) && (i > 0 ==> wakeups > 0)
      {
        QueueInLoop(cbs[i], inLoopThread);
        i := i + 1;
      }
      assert cbs[..i] == cbs;
    }
  }

  /** What is queued while the first `n` functors of a batch run. */
  function Arrivals(queues: nat -> seq<Functor>, others: nat -> seq<Functor>, n: nat): seq<Functor> {
    if n == 0 then [] else Arrivals(queues, others, n - 1) + queues(n - 1) + others(n - 1)
  }
}
