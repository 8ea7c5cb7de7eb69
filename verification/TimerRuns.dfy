/**
 The timer queue refines a plain map from timers to deadlines, across whole runs
 and with callbacks that add and cancel while a batch is running.
 */
module TimerRuns {
  import opened TimerSpec
  import opened TimerSafety

  /** The timers that are to fire again, and how many were created. */
  datatype Plan = Plan(live: map<Address, Timer>, created: nat)

  /** Timers cancelled while their batch runs are still allocated, but no longer planned. */
  ghost function Abs(q: Queue): Plan {
    Plan(map t | t in q.heap && !(t in q.canceling && t in Ptrs(q.batch)) :: q.heap[t], q.created)
  }

  function PlanOp(p: Plan, op: Op): Plan {
    match op
    case Add(t, when, interval) => Plan(p.live[t := Timer(when, interval, p.created + 1)], p.created + 1)
    case Drop(t) => p.(live := p.live - {t})
    case Wait(_) => p
  }

  function PlanOps(p: Plan, ops: seq<Op>): Plan
    decreases |ops|
  {
    if ops == [] then p else PlanOps(PlanOp(p, ops[0]), ops[1..])
  }

  function PlanScript(p: Plan, script: seq<seq<Op>>): Plan
    decreases |script|
  {
    if script == [] then p else PlanScript(PlanOps(p, script[0]), script[1..])
  }

  /** The same timer, due one interval (in seconds) after `now` (in microseconds). */
  function Again(timer: Timer, now: int): Timer {
    Timer(now + (timer.interval * 1000000.0).Floor, timer.interval, timer.sequence)
  }

  /** After a batch: of the timers that fired, the planned repeating ones are due again one
      interval after `now`, the others are gone. */
  function PlanFinish(p: Plan, due: set<Address>, now: int): Plan {
    p.(live := map t | t in p.live && (t in due ==> p.live[t].interval > 0.0) ::
                 if t in due then Again(p.live[t], now) else p.live[t])
  }

  /** restart: a repeating timer is due again one interval later, any other is given a time
      that is not valid. */
  lemma RestartExactly(timer: Timer, now: int)
    ensures timer.Restart(now) == if timer.interval > 0.0 then Again(timer, now) else timer.(expiration := 0)
    ensures timer.interval == 1.0 ==> timer.Restart(now).expiration == now + 1000000
  {
  }

  ghost predicate InBatch(q: Queue) { Inv(q) && q.calling }

  ghost predicate AtRest(q: Queue) { Inv(q) && !q.calling && q.batch == [] }

  lemma BatchPtrsLive(q: Queue)
    requires Inv(q)
    ensures Ptrs(q.batch) <= q.heap.Keys
    ensures forall t :: t in q.heap ==> (t in Ptrs(q.batch) <==> Entry(q.heap[t].expiration, t) in q.batch)
    ensures forall t :: t in q.heap ==> (t in Ptrs(q.batch) <==> Entry(q.heap[t].expiration, t) !in q.timers)
  {
    forall t | t in q.heap
      ensures t in Ptrs(q.batch) <==> Entry(q.heap[t].expiration, t) in q.batch
    {
      if t in Ptrs(q.batch) {
        var e :| e in q.batch && e.timer == t;
        assert e == Entry(q.heap[t].expiration, t);
      }
    }
  }

  // How the plan sees single changes of the queue.

  lemma AbsAdd(q: Queue, r: Queue, t: Address, timer: Timer)
    requires r.heap == q.heap[t := timer] && r.canceling == q.canceling && r.batch == q.batch
    requires t !in Ptrs(q.batch)
    ensures Abs(r).live == Abs(q).live[t := timer]
  {
  }

  lemma AbsFree(q: Queue, r: Queue, t: Address)
    requires r.heap == q.heap - {t} && r.canceling == q.canceling && r.batch == q.batch
    ensures Abs(r).live == Abs(q).live - {t}
  {
  }

  lemma AbsCancel(q: Queue, r: Queue, t: Address)
    requires r.heap == q.heap && r.canceling == q.canceling + {t} && r.batch == q.batch
    requires t in Ptrs(q.batch)
    ensures Abs(r).live == Abs(q).live - {t}
  {
  }

  lemma AbsSame(q: Queue, r: Queue)
    requires r.heap == q.heap && r.canceling == q.canceling && r.batch == q.batch && r.created == q.created
    ensures Abs(r) == Abs(q)
  {
  }

  /** Dropping the head of the batch shows only at its own timer. */
  lemma AbsPop(q: Queue, r: Queue, t: Address)
    requires r.heap == q.heap && r.canceling == q.canceling
    requires Ptrs(q.batch) == Ptrs(r.batch) + {t} && t !in Ptrs(r.batch) && t in q.heap
    ensures Abs(r).live - {t} == Abs(q).live - {t}
    ensures t in Abs(r).live
    ensures t in Abs(q).live <==> t !in q.canceling
  {
  }

  lemma AddRefines(q: Queue, t: Address, when: int, interval: real)
    requires Inv(q) && t !in q.heap
    ensures Abs(AddTimer(q, t, when, interval)) == PlanOp(Abs(q), Add(t, when, interval))
  {
    BatchPtrsLive(q);
    AbsAdd(q, AddTimer(q, t, when, interval), t, Timer(when, interval, q.created + 1));
  }

  lemma DropRefines(q: Queue, t: Address)
    requires InBatch(q) || AtRest(q)
    requires t in q.heap
    ensures Abs(Cancel(q, t)) == PlanOp(Abs(q), Drop(t))
  {
    BatchPtrsLive(q);
    var r := Cancel(q, t);
    if Entry(q.heap[t].expiration, t) in q.timers {
      AbsFree(q, r, t);
    } else {
      AbsCancel(q, r, t);
    }
  }

  lemma OpRefines(q: Queue, op: Op)
    requires InBatch(q) || AtRest(q)
    requires OpOk(q, op)
    ensures var r := ApplyOp(q, op);
      Abs(r) == PlanOp(Abs(q), op) && r.batch == q.batch && r.calling == q.calling && r.fired == q.fired
  {
    match op
    case Add(t, when, interval) => AddRefines(q, t, when, interval);
    case Drop(t) => DropRefines(q, t);
    case Wait(_) => AbsSame(q, ApplyOp(q, op));
  }

  lemma {:induction false} OpsRefine(q: Queue, ops: seq<Op>)
    requires InBatch(q) && OpsOk(q, ops)
    ensures var r := ApplyOps(q, ops);
      InBatch(r) && Abs(r) == PlanOps(Abs(q), ops) && r.batch == q.batch && r.fired == q.fired
    decreases |ops|
  {
    if ops != [] {
      OpKeeps(q, ops[0]);
      OpRefines(q, ops[0]);
      OpsRefine(ApplyOp(q, ops[0]), ops[1..]);
    }
  }

  lemma FireSame(q: Queue, e: Entry)
    requires InBatch(q)
    ensures InBatch(Fire(q, e)) && Abs(Fire(q, e)) == Abs(q) && Fire(q, e).batch == q.batch
  {
    AbsSame(q, Fire(q, e));
    SameAccounted(q, Fire(q, e));
  }

  /** One timer fires and its callback runs. */
  lemma CallbackRefines(q: Queue, e: Entry, ops: seq<Op>)
    requires InBatch(q) && OpsOk(Fire(q, e), ops)
    ensures var m := ApplyOps(Fire(q, e), ops);
      InBatch(m) && Abs(m) == PlanOps(Abs(q), ops) && m.batch == q.batch && m.fired == q.fired + [e]
  {
    FireSame(q, e);
    OpsRefine(Fire(q, e), ops);
  }

  lemma {:induction false} CallbacksRefine(q: Queue, todo: seq<Entry>, script: seq<seq<Op>>)
    requires InBatch(q) && |script| == |todo| && ScriptOk(q, todo, script)
    ensures var r := RunCallbacks(q, todo, script);
      InBatch(r) && Abs(r) == PlanScript(Abs(q), script) && r.batch == q.batch && r.fired == q.fired + todo
    decreases |todo|
  {
    if todo != [] {
      CallbackRefines(q, todo[0], script[0]);
      CallbacksRefine(ApplyOps(Fire(q, todo[0]), script[0]), todo[1..], script[1..]);
      assert (q.fired + [todo[0]]) + todo[1..] == q.fired + todo;
    }
  }

  // ---------------------------------------------------------------------- reset

  lemma PtrsTail(ts: seq<Entry>)
    requires ts != []
    ensures Ptrs(ts) == Ptrs(ts[1..]) + {ts[0].timer}
  {
    assert ts == [ts[0]] + ts[1..];
    assert forall e :: e in ts <==> e == ts[0] || e in ts[1..];
    assert ts[0] in ts;
  }

  function PlanReset(p: Plan, t: Address, now: int): Plan {
    if t !in p.live then p
    else if p.live[t].interval > 0.0 then p.(live := p.live[t := Again(p.live[t], now)])
    else p.(live := p.live - {t})
  }

  lemma SameButOne<K, V>(a: map<K, V>, b: map<K, V>, k: K, v: V)
    requires a - {k} == b - {k}
    ensures a[k := v] == b[k := v]
  {
    assert a[k := v] == (a - {k})[k := v] && b[k := v] == (b - {k})[k := v];
  }

  lemma NothingToRemove<K, V>(m: map<K, V>, k: K)
    requires k !in m
    ensures m - {k} == m
  {
  }

  /** The head of the batch leaves it. */
  lemma Popped(q: Queue)
    requires Inv(q) && q.batch != []
    ensures var t := q.batch[0].timer; var q1 := q.(batch := q.batch[1..]);
      && t in q.heap && t !in Ptrs(q1.batch) && q1.heap == q.heap
      && Abs(q1).live - {t} == Abs(q).live - {t} && (t in Abs(q).live <==> t !in q.canceling)
      && (t in Abs(q).live ==> Abs(q).live[t] == q.heap[t])
  {
    PtrsTail(q.batch);
    BatchTail(q);
    AbsPop(q, q.(batch := q.batch[1..]), q.batch[0].timer);
  }

  lemma ResetOneRefines(q: Queue, now: int)
    requires Inv(q) && q.batch != []
    ensures Abs(ResetOne(q, now)) == PlanReset(Abs(q), q.batch[0].timer, now)
    ensures q.batch[0].timer !in Ptrs(q.batch[1..])
  {
    var t := q.batch[0].timer;
    Popped(q);
    if q.heap[t].Repeat() && t !in q.canceling {
      PutBackRefines(q, now);
    } else {
      FreedRefines(q, now);
    }
  }

  lemma PutBackRefines(q: Queue, now: int)
    requires Inv(q) && q.batch != []
    requires var t := q.batch[0].timer; t in q.heap && q.heap[t].Repeat() && t !in q.canceling
    ensures Abs(ResetOne(q, now)) == PlanReset(Abs(q), q.batch[0].timer, now)
  {
    var t := q.batch[0].timer;
    var q1 := q.(batch := q.batch[1..]);
    var again := Again(q.heap[t], now);
    Popped(q);
    PutBackHeap(q, now, t, again);
    AbsAdd(q1, ResetOne(q, now), t, again);
    SameButOne(Abs(q1).live, Abs(q).live, t, again);
  }

  lemma PutBackHeap(q: Queue, now: int, t: Address, again: Timer)
    requires q.batch != [] && t == q.batch[0].timer && t in q.heap && q.heap[t].Repeat() && t !in q.canceling
    requires again == Again(q.heap[t], now)
    ensures var r := ResetOne(q, now);
      r.heap == q.heap[t := again] && r.canceling == q.canceling && r.batch == q.batch[1..] && r.created == q.created
  {
    RestartExactly(q.heap[t], now);
  }

  lemma FreedRefines(q: Queue, now: int)
    requires Inv(q) && q.batch != []
    requires var t := q.batch[0].timer; t in q.heap && !(q.heap[t].Repeat() && t !in q.canceling)
    ensures Abs(ResetOne(q, now)) == PlanReset(Abs(q), q.batch[0].timer, now)
  {
    var t := q.batch[0].timer;
    Popped(q);
    AbsFree(q.(batch := q.batch[1..]), ResetOne(q, now), t);
    if t !in Abs(q).live {
      NothingToRemove(Abs(q).live, t);
    }
  }

  /** Finishing the plan timer by timer. */
  lemma FinishStep(p: Plan, t: Address, rest: set<Address>, now: int)
    requires t !in rest
    ensures PlanFinish(PlanReset(p, t, now), rest, now) == PlanFinish(p, rest + {t}, now)
  {
    assert PlanFinish(PlanReset(p, t, now), rest, now).live == PlanFinish(p, rest + {t}, now).live;
  }

  lemma FinishNone(p: Plan, now: int)
    ensures PlanFinish(p, {}, now) == p
  {
    assert PlanFinish(p, {}, now).live == p.live;
  }

  lemma {:induction false} ResetAllRefines(q: Queue, now: int, changed: bool)
    requires Inv(q)
    ensures var r := ResetAll(q, now, changed).0;
      && Inv(r) && r.batch == [] && r.calling == q.calling && r.fired == q.fired
      && Abs(r) == PlanFinish(Abs(q), Ptrs(q.batch), now)
    decreases |q.batch|
  {
    if q.batch == [] {
      FinishNone(Abs(q), now);
    } else {
      var t := q.batch[0].timer;
      ResetOneKeeps(q, now);
      ResetOneRefines(q, now);
      PtrsTail(q.batch);
      FinishStep(Abs(q), t, Ptrs(q.batch[1..]), now);
      ResetAllRefines(ResetOne(q, now), now, ResetChanged(q, now) || changed);
    }
  }

  // ------------------------------------------------------------------ handleRead

  /** The entries due at `now`, in firing order. */
  function Due(q: Queue, now: int): seq<Entry> { q.timers[..DueCount(q.timers, now)] }

  /** They are exactly the living timers whose deadline has come, in deadline order, and those
      with the same deadline in the order of their addresses. */
  lemma DueExactly(q: Queue, now: int)
    requires AtRest(q)
    ensures var due := Due(q, now); forall i, j :: 0 <= i < j < |due| ==>
      due[i].when < due[j].when || (due[i].when == due[j].when && due[i].timer < due[j].timer)
    ensures forall e :: e in Due(q, now) <==> e.timer in q.heap && q.heap[e.timer].expiration == e.when && e.when <= now
  {
    var n := DueCount(q.timers, now);
    SortedSplit(q.timers, n);
    forall e
      ensures e in Due(q, now) <==> e.timer in q.heap && q.heap[e.timer].expiration == e.when && e.when <= now
    {
      if e in q.timers[n..] {
        var j :| n <= j < |q.timers| && q.timers[j] == e;
        assert j == n || Less(q.timers[n], e);
      }
    }
  }

  /** One expiry of the kernel timer: fires exactly the due timers in deadline order, and
      leaves in the plan what the callbacks made of it, with the fired repeating timers that
      were not cancelled due one interval later and all other fired timers gone. */
  lemma HandleReadRefines(q: Queue, now: int, script: seq<seq<Op>>)
    requires AtRest(q)
    requires |script| == DueCount(q.timers, now) && ScriptOk(Begin(q, now), Begin(q, now).batch, script)
    ensures var r := HandleRead(q, now, script);
      && AtRest(r) && r.fired == q.fired + Due(q, now)
      && Abs(r) == PlanFinish(PlanScript(Abs(q), script), Ptrs(Due(q, now)), now)
  {
    var b := Begin(q, now);
    BeginKeeps(q, now);
    AbsAtRest(q);
    AbsNoneCancelled(b);
    CallbacksRefine(b, b.batch, script);
    var m := RunCallbacks(b, b.batch, script);
    FinishRefines(m, now);
  }

  function Waited(ops: seq<Op>): nat
    decreases |ops|
  {
    if ops == [] then 0 else (if ops[0].Wait? then ops[0].d else 0) + Waited(ops[1..])
  }

  function WaitedIn(script: seq<seq<Op>>): nat
    decreases |script|
  {
    if script == [] then 0 else Waited(script[0]) + WaitedIn(script[1..])
  }

  lemma {:induction false} OpsClock(q: Queue, ops: seq<Op>)
    requires OpsOk(q, ops)
    ensures ApplyOps(q, ops).clock == q.clock + Waited(ops)
    decreases |ops|
  {
    if ops != [] {
      OpsClock(ApplyOp(q, ops[0]), ops[1..]);
    }
  }

  lemma {:induction false} CallbacksClock(q: Queue, todo: seq<Entry>, script: seq<seq<Op>>)
    requires |script| == |todo| && ScriptOk(q, todo, script)
    ensures RunCallbacks(q, todo, script).clock == q.clock + WaitedIn(script)
    decreases |todo|
  {
    if todo != [] {
      OpsClock(Fire(q, todo[0]), script[0]);
      CallbacksClock(ApplyOps(Fire(q, todo[0]), script[0]), todo[1..], script[1..]);
    }
  }

  lemma {:induction false} ResetClock(q: Queue, now: int, changed: bool)
    ensures ResetAll(q, now, changed).0.clock == q.clock
    decreases |q.batch|
  {
    if q.batch != [] {
      ResetClock(ResetOne(q, now), now, ResetChanged(q, now) || changed);
    }
  }

  /** Time passes: an expiry at `now` begins no earlier than that, and takes as long as its
      callbacks do. */
  lemma ExpiryTakes(q: Queue, now: int, script: seq<seq<Op>>)
    requires |script| == DueCount(q.timers, now) && ScriptOk(Begin(q, now), Begin(q, now).batch, script)
    ensures HandleRead(q, now, script).clock == (if q.clock < now then now else q.clock) + WaitedIn(script)
  {
    var b := Begin(q, now);
    CallbacksClock(b, b.batch, script);
    ResetClock(RunCallbacks(b, b.batch, script).(calling := false), now, false);
  }

  lemma AbsAtRest(q: Queue)
    requires q.batch == []
    ensures Abs(q).live == q.heap
  {
  }

  lemma AbsNoneCancelled(q: Queue)
    requires q.canceling == {}
    ensures Abs(q).live == q.heap
  {
  }

  lemma RearmSame(q: Queue, changed: bool)
    requires AtRest(q)
    ensures var r := Rearm(q, changed); AtRest(r) && r.fired == q.fired && Abs(r) == Abs(q)
  {
    SameAccounted(q, Rearm(q, changed));
    AbsSame(q, Rearm(q, changed));
  }

  lemma NotCalling(m: Queue)
    requires Inv(m)
    ensures Inv(m.(calling := false)) && Abs(m.(calling := false)) == Abs(m)
  {
    SameAccounted(m, m.(calling := false));
    AbsSame(m, m.(calling := false));
  }

  lemma FinishRefines(m: Queue, now: int)
    requires InBatch(m)
    ensures var r := Finish(m, now);
      AtRest(r) && r.fired == m.fired && Abs(r) == PlanFinish(Abs(m), Ptrs(m.batch), now)
  {
    var c := m.(calling := false);
    NotCalling(m);
    ResetAllRefines(c, now, false);
    RearmSame(ResetAll(c, now, false).0, ResetAll(c, now, false).1);
  }

  // ------------------------------------------------------------------ whole runs

  datatype Event = Outside(op: Op) | Expiry(now: int, script: seq<seq<Op>>)

  predicate EventOk(q: Queue, ev: Event) {
    match ev
    case Outside(op) => OpOk(q, op)
    case Expiry(now, script) =>
      |script| == DueCount(q.timers, now) && ScriptOk(Begin(q, now), Begin(q, now).batch, script)
  }

  function Step(q: Queue, ev: Event): Queue
    requires EventOk(q, ev)
  {
    match ev
    case Outside(op) => ApplyOp(q, op)
    case Expiry(now, script) => HandleRead(q, now, script)
  }

  predicate EventsOk(q: Queue, evs: seq<Event>)
    decreases |evs|
  {
    evs == [] || (EventOk(q, evs[0]) && EventsOk(Step(q, evs[0]), evs[1..]))
  }

  function Run(q: Queue, evs: seq<Event>): Queue
    requires EventsOk(q, evs)
    decreases |evs|
  {
    if evs == [] then q else Run(Step(q, evs[0]), evs[1..])
  }

  /** The plain map's own run: which timers fire is decided by the map alone. */
  ghost function PlanDue(p: Plan, now: int): set<Address> {
    set t | t in p.live && p.live[t].expiration <= now
  }

  ghost function PlanStep(p: Plan, ev: Event): Plan {
    match ev
    case Outside(op) => PlanOp(p, op)
    case Expiry(now, script) => PlanFinish(PlanScript(p, script), PlanDue(p, now), now)
  }

  ghost function PlanRun(p: Plan, evs: seq<Event>): Plan
    decreases |evs|
  {
    if evs == [] then p else PlanRun(PlanStep(p, evs[0]), evs[1..])
  }

  lemma EventRefines(q: Queue, ev: Event)
    requires AtRest(q) && EventOk(q, ev)
    ensures AtRest(Step(q, ev)) && Abs(Step(q, ev)) == PlanStep(Abs(q), ev)
  {
    match ev
    case Outside(op) =>
      OpKeeps(q, op);
      OpRefines(q, op);
    case Expiry(now, script) =>
      HandleReadRefines(q, now, script);
      DueExactly(q, now);
      assert Abs(q).live == q.heap;
      forall t
        ensures t in Ptrs(Due(q, now)) <==> t in PlanDue(Abs(q), now)
      {
        if t in PlanDue(Abs(q), now) {
          assert Entry(q.heap[t].expiration, t) in Due(q, now);
        }
      }
      assert Ptrs(Due(q, now)) == PlanDue(Abs(q), now);
  }

  /** A timer of one second that is due, and that no callback cancels, is planned for exactly
      a second after its expiry. */
  lemma EverySecond(p: Plan, t: Address, now: int)
    requires t in PlanDue(p, now) && p.live[t].interval == 1.0
    ensures t in PlanFinish(p, PlanDue(p, now), now).live && PlanFinish(p, PlanDue(p, now), now).live[t].expiration == now + 1000000
  {
  }

  lemma {:induction false} RunRefinesFrom(q: Queue, evs: seq<Event>)
    requires AtRest(q) && EventsOk(q, evs)
    ensures AtRest(Run(q, evs)) && Abs(Run(q, evs)) == PlanRun(Abs(q), evs)
    decreases |evs|
  {
    if evs != [] {
      EventRefines(q, evs[0]);
      RunRefinesFrom(Step(q, evs[0]), evs[1..]);
    }
  }

  /** Over every run from the empty queue: the living timers are those of the plain map with
      the same deadlines; each is keyed by its own deadline and is in the set; and of all
      timers ever created each is either living or freed, freed once. */
  lemma RunRefinesMap(evs: seq<Event>)
    requires EventsOk(EMPTY, evs)
    ensures var r := Run(EMPTY, evs);
      && r.heap == PlanRun(Plan(map[], 0), evs).live
      && Inv(r) && r.batch == [] && !r.calling
  {
    assert AtRest(EMPTY);
    assert Abs(EMPTY) == Plan(map[], 0);
    RunRefinesFrom(EMPTY, evs);
    var r := Run(EMPTY, evs);
    assert Abs(r).live == r.heap;
  }
}
