/**
 The kernel timer and the earliest deadline: what adding and cancelling keep,
 and exactly when an expiry leaves the next deadline armed.
 */
module TimerArming {
  import opened TimerSpec
  import opened Wrappers
  import opened TimerSafety
  import opened TimerRuns

  /** No later than the earliest deadline, but for the floor below which it is never set. */
  predicate ArmedInTime(q: Queue) {
    q.armed.Some? && (q.timers == [] || q.armed.value <= q.timers[0].when || q.armed.value <= q.clock + FLOOR)
  }

  predicate ArmedOk(q: Queue) { q.timers == [] || ArmedInTime(q) }

  /** Within a batch: not armed again yet, or armed in time. */
  predicate ArmedOrNot(q: Queue) { q.armed.None? || ArmedInTime(q) }

  lemma {:induction false} InsertHead(ts: seq<Entry>, e: Entry)
    requires Sorted(ts)
    ensures InsertEntry(ts, e) != []
    ensures InsertEntry(ts, e)[0].when == if EarliestChanged(ts, e.when) then e.when else ts[0].when
  {
    if ts != [] && ts[0] != e && !Less(e, ts[0]) {
      SortedTail(ts);
    }
  }

  lemma AddArms(q: Queue, t: Address, when: int, interval: real)
    requires Sorted(q.timers)
    ensures var r := AddTimer(q, t, when, interval);
      && (EarliestChanged(q.timers, when) ==> ArmedInTime(r))
      && (!EarliestChanged(q.timers, when) ==> r.armed == q.armed && r.timers != [] && r.timers[0].when == q.timers[0].when && r.clock == q.clock)
  {
    InsertHead(q.timers, Entry(when, t));
  }

  /** Adding arms the kernel timer exactly for a deadline before all others, for that deadline
      but no closer than 100 microseconds. */
  lemma AddArmsExactly(q: Queue, t: Address, when: int, interval: real)
    ensures AddTimer(q, t, when, interval).armed ==
      if q.timers == [] || when < q.timers[0].when then Some(if when < q.clock + 100 then q.clock + 100 else when) else q.armed
  {
  }

  lemma CancelArmed(q: Queue, t: Address)
    requires Sorted(q.timers) && t in q.heap
    ensures var r := Cancel(q, t);
      && r.armed == q.armed && r.clock == q.clock
      && (r.timers != [] ==> q.timers != [] && q.timers[0].when <= r.timers[0].when)
  {
    RemoveSorted(q.timers, Entry(q.heap[t].expiration, t));
  }

  /** Adding, cancelling and waiting keep the earliest deadline armed. */
  lemma OpKeepsArmed(q: Queue, op: Op)
    requires Inv(q) && OpOk(q, op)
    ensures ArmedOk(q) ==> ArmedOk(ApplyOp(q, op))
    ensures ArmedOrNot(q) ==> ArmedOrNot(ApplyOp(q, op))
    ensures q.armed.Some? ==> ApplyOp(q, op).armed.Some?
  {
    match op
    case Add(t, when, interval) => AddArms(q, t, when, interval);
    case Drop(t) => CancelArmed(q, t);
    case Wait(_) =>
  }

  lemma {:induction false} OpsKeepArmed(q: Queue, ops: seq<Op>)
    requires InBatch(q) && OpsOk(q, ops) && ArmedOrNot(q)
    ensures ArmedOrNot(ApplyOps(q, ops)) && InBatch(ApplyOps(q, ops)) && ApplyOps(q, ops).batch == q.batch
    decreases |ops|
  {
    if ops != [] {
      OpKeeps(q, ops[0]);
      OpRefines(q, ops[0]);
      OpKeepsArmed(q, ops[0]);
      OpsKeepArmed(ApplyOp(q, ops[0]), ops[1..]);
    }
  }

  lemma {:induction false} CallbacksKeepArmed(q: Queue, todo: seq<Entry>, script: seq<seq<Op>>)
    requires InBatch(q) && |script| == |todo| && ScriptOk(q, todo, script) && ArmedOrNot(q)
    ensures ArmedOrNot(RunCallbacks(q, todo, script)) && InBatch(RunCallbacks(q, todo, script))
    decreases |todo|
  {
    if todo != [] {
      FireSame(q, todo[0]);
      OpsKeepArmed(Fire(q, todo[0]), script[0]);
      CallbacksKeepArmed(ApplyOps(Fire(q, todo[0]), script[0]), todo[1..], script[1..]);
    }
  }

  // ---------------------------------------------------------------------- reset

  /** The timer of this batch entry is put back before everything then in the set. */
  predicate Leads(q: Queue, e: Entry, now: int) {
    && e.timer in q.heap && q.heap[e.timer].interval > 0.0 && e.timer !in q.canceling
    && (q.timers == [] || Again(q.heap[e.timer], now).expiration < q.timers[0].when)
  }

  /** Resetting one timer that does not lead moves neither the head of the set nor what the
      other batch entries stand for. */
  lemma ResetOneUnled(q: Queue, now: int)
    requires Inv(q) && q.batch != [] && !Leads(q, q.batch[0], now)
    ensures var r := ResetOne(q, now);
      && EarliestSame(q.timers, r.timers) && r.armed == q.armed && r.clock == q.clock
      && (forall e <- q.batch[1..] :: Leads(r, e, now) <==> Leads(q, e, now))
  {
    var t := q.batch[0].timer;
    BatchTail(q);
    assert t in q.heap;
    if q.heap[t].Repeat() && t !in q.canceling {
      InsertHead(q.timers, Entry(q.heap[t].Restart(now).expiration, t));
    }
  }

  predicate EarliestSame(ts: seq<Entry>, rs: seq<Entry>) {
    if ts == [] then rs == [] else rs != [] && rs[0].when == ts[0].when
  }

  lemma ResetOneArmed(q: Queue, now: int)
    requires Inv(q) && q.batch != []
    ensures ResetOne(q, now).armed == q.armed && ResetOne(q, now).clock == q.clock
    ensures ResetChanged(q, now) <==> Leads(q, q.batch[0], now)
  {
  }

  /** Some timer of the batch leads. */
  ghost predicate Led(q: Queue, now: int) { exists e <- q.batch :: Leads(q, e, now) }

  /** While nothing has led, resetting the first timer leaves the question with the rest. */
  lemma LedStep(q: Queue, now: int)
    requires Inv(q) && q.batch != [] && !Leads(q, q.batch[0], now)
    ensures Led(q, now) <==> Led(ResetOne(q, now), now)
  {
    ResetOneUnled(q, now);
    assert ResetOne(q, now).batch == q.batch[1..];
    assert forall e :: e in q.batch <==> e == q.batch[0] || e in q.batch[1..] by { assert q.batch == [q.batch[0]] + q.batch[1..]; }
  }

  lemma {:induction false} ResetAllArmed(q: Queue, now: int, changed: bool)
    requires Inv(q)
    ensures var (r, flag) := ResetAll(q, now, changed);
      r.armed == q.armed && r.clock == q.clock && (changed ==> flag)
    decreases |q.batch|
  {
    if q.batch != [] {
      ResetOneKeeps(q, now);
      ResetOneArmed(q, now);
      ResetAllArmed(ResetOne(q, now), now, ResetChanged(q, now) || changed);
    }
  }

  /** The flag that guards re-arming is set exactly when some timer of the batch leads. */
  lemma {:induction false} FlagExactly(q: Queue, now: int, changed: bool)
    requires Inv(q)
    ensures var (r, flag) := ResetAll(q, now, changed);
      && (flag <==> changed || Led(q, now))
      && r.armed == q.armed && r.clock == q.clock
      && (!Led(q, now) ==> EarliestSame(q.timers, r.timers))
    decreases |q.batch|
  {
    ResetAllArmed(q, now, changed);
    if q.batch != [] {
      var q1 := ResetOne(q, now);
      ResetOneKeeps(q, now);
      ResetOneArmed(q, now);
      if Leads(q, q.batch[0], now) {
        ResetAllArmed(q1, now, true);
      } else {
        LedStep(q, now);
        ResetOneUnled(q, now);
        FlagExactly(q1, now, changed);
      }
    }
  }

  /** Once a leading timer has been put back, the earliest deadline is not before `now`. */
  lemma {:induction false} LedAtMost(q: Queue, now: int, changed: bool)
    requires Inv(q) && Led(q, now)
    ensures var r := ResetAll(q, now, changed).0; r.timers != [] && r.timers[0].when >= now
    decreases |q.batch|
  {
    var e0 := q.batch[0];
    ResetOneKeeps(q, now);
    ResetOneArmed(q, now);
    var q1 := ResetOne(q, now);
    if Leads(q, e0, now) {
      InsertHead(q.timers, Entry(q.heap[e0.timer].Restart(now).expiration, e0.timer));
      if Led(q1, now) {
        LedAtMost(q1, now, true);
      } else {
        FlagExactly(q1, now, true);
      }
    } else {
      LedStep(q, now);
      LedAtMost(q1, now, changed);
    }
  }

  lemma LedIsArmed(q: Queue, now: int)
    requires Inv(q) && !q.calling && now > 0 && Led(q, now)
    ensures ArmedInTime(Finish(q, now))
  {
    FlagExactly(q, now, false);
    LedAtMost(q, now, false);
    assert q.(calling := false) == q;
  }

  // ------------------------------------------------------------------ handleRead

  /** The state between the callbacks and reset. */
  function AfterCallbacks(q: Queue, now: int, script: seq<seq<Op>>): Queue
    requires |script| == DueCount(q.timers, now) && ScriptOk(Begin(q, now), Begin(q, now).batch, script)
  {
    RunCallbacks(Begin(q, now), Begin(q, now).batch, script)
  }

  /** After an expiry the earliest deadline is armed exactly when, before reset, nothing else
      waits in the set, or a callback's addTimer armed the timer, or a repeating timer is to
      be put back in front of all others. */
  lemma HandleReadArmedExactly(q: Queue, now: int, script: seq<seq<Op>>)
    requires AtRest(q) && now > 0
    requires |script| == DueCount(q.timers, now) && ScriptOk(Begin(q, now), Begin(q, now).batch, script)
    ensures var m := AfterCallbacks(q, now, script);
      ArmedOk(HandleRead(q, now, script)) <==> m.timers == [] || m.armed.Some? || Led(m, now)
  {
    var b := Begin(q, now);
    BeginKeeps(q, now);
    CallbacksKeepArmed(b, b.batch, script);
    FinishArmed(AfterCallbacks(q, now, script), now);
  }

  /** Armed for the earliest deadline, but no closer than 100 microseconds. */
  predicate ArmedForEarliest(q: Queue) {
    q.timers != [] && q.armed == Some(if q.timers[0].when < q.clock + 100 then q.clock + 100 else q.timers[0].when)
  }

  /** When a timer of the batch leads, reset arms the kernel timer for the deadline that is
      then the earliest; else it leaves the kernel timer alone. */
  lemma ResetArmsExactly(m: Queue, now: int)
    requires InBatch(m) && now > 0
    ensures if Led(m, now) then ArmedForEarliest(Finish(m, now)) else Finish(m, now).armed == m.armed
  {
    var c := m.(calling := false);
    NotCalling(m);
    LeadsSame(m, c, now);
    var (r, flag) := ResetAll(c, now, false);
    ResetFlags(c, now, r, flag, Led(m, now));
    FinishIs(m, now, r, flag);
    RearmExactly(r, flag);
  }

  lemma FinishIs(m: Queue, now: int, r: Queue, flag: bool)
    requires ResetAll(m.(calling := false), now, false) == (r, flag)
    ensures Finish(m, now) == Rearm(r, flag)
  {
  }

  lemma ResetFlags(c: Queue, now: int, r: Queue, flag: bool, led: bool)
    requires Inv(c) && now > 0 && ResetAll(c, now, false) == (r, flag) && led == Led(c, now)
    ensures flag == led && r.armed == c.armed && (led ==> r.timers != [] && r.timers[0].when > 0)
  {
    FlagExactly(c, now, false);
    if led {
      LedAtMost(c, now, false);
    }
  }

  lemma RearmExactly(q: Queue, changed: bool)
    ensures var r := Rearm(q, changed);
      if changed && q.timers != [] && q.timers[0].when > 0 then ArmedForEarliest(r) else r == q
  {
  }

  lemma FinishArmed(m: Queue, now: int)
    requires InBatch(m) && ArmedOrNot(m) && now > 0
    ensures ArmedOk(Finish(m, now)) <==> m.timers == [] || m.armed.Some? || Led(m, now)
  {
    var c := m.(calling := false);
    NotCalling(m);
    LeadsSame(m, c, now);
    if Led(c, now) {
      LedIsArmed(c, now);
      assert Finish(m, now) == Finish(c, now);
    } else {
      UnledArmed(c, now);
      assert Finish(m, now) == Finish(c, now);
    }
  }

  /** When nothing leads, reset leaves the kernel timer and the head of the set alone. */
  lemma UnledArmed(c: Queue, now: int)
    requires Inv(c) && !c.calling && ArmedOrNot(c) && !Led(c, now)
    ensures ArmedOk(Finish(c, now)) <==> c.timers == [] || c.armed.Some?
  {
    assert c.(calling := false) == c;
    FlagExactly(c, now, false);
  }

  lemma LeadsSame(m: Queue, c: Queue, now: int)
    requires c == m.(calling := false)
    ensures forall e :: Leads(m, e, now) <==> Leads(c, e, now)
    ensures Led(m, now) <==> Led(c, now)
  {
  }

  /** Callbacks that leave the queue alone. */
  predicate Quiet(script: seq<seq<Op>>) { forall ops <- script :: ops == [] }

  lemma {:induction false} QuietCallbacks(q: Queue, todo: seq<Entry>, script: seq<seq<Op>>)
    requires |script| == |todo| && Quiet(script) && ScriptOk(q, todo, script)
    ensures RunCallbacks(q, todo, script) == q.(fired := q.fired + todo)
    decreases |todo|
  {
    if todo == [] {
      assert q.fired + todo == q.fired;
    } else {
      assert script[0] in script && forall ops <- script[1..] :: ops in script;
      assert ApplyOps(Fire(q, todo[0]), script[0]) == Fire(q, todo[0]);
      QuietCallbacks(Fire(q, todo[0]), todo[1..], script[1..]);
      assert (q.fired + [todo[0]]) + todo[1..] == q.fired + todo;
    }
  }

  /** With such callbacks the condition can be read off before the call: no timer survives
      the expiry, or some due repeating timer will be due again before every survivor. */
  lemma QuietExpiryArmedExactly(q: Queue, now: int, script: seq<seq<Op>>)
    requires AtRest(q) && now > 0 && Quiet(script)
    requires |script| == DueCount(q.timers, now) && ScriptOk(Begin(q, now), Begin(q, now).batch, script)
    ensures var survivors := q.timers[DueCount(q.timers, now)..];
      ArmedOk(HandleRead(q, now, script)) <==>
        survivors == [] ||
        exists e <- Due(q, now) :: q.heap[e.timer].interval > 0.0 && Again(q.heap[e.timer], now).expiration < survivors[0].when
  {
    var b := Begin(q, now);
    BeginKeeps(q, now);
    QuietCallbacks(b, b.batch, script);
    HandleReadArmedExactly(q, now, script);
    var m := AfterCallbacks(q, now, script);
    assert m == b.(fired := b.fired + b.batch);
    if m.timers != [] {
      QuietLed(m, now);
    }
  }

  /** Before reset, with nothing cancelled, whether a timer leads can be read off. */
  lemma QuietLed(m: Queue, now: int)
    requires Keyed(m.batch, m.heap) && m.canceling == {} && m.timers != []
    ensures Led(m, now) <==>
      exists e <- m.batch :: m.heap[e.timer].interval > 0.0 && Again(m.heap[e.timer], now).expiration < m.timers[0].when
  {
  }

  // ------------------------------------------------------ the guard as intended

  /** An expiry that arms the kernel timer again whenever a timer is left, instead of only
      when the earliest deadline changed. */
  function HandleReadIntended(q: Queue, now: int, script: seq<seq<Op>>): Queue
    requires |script| == DueCount(q.timers, now) && ScriptOk(Begin(q, now), Begin(q, now).batch, script)
  {
    Rearm(ResetAll(AfterCallbacks(q, now, script).(calling := false), now, false).0, true)
  }

  function StepIntended(q: Queue, ev: Event): Queue
    requires EventOk(q, ev)
  {
    match ev
    case Outside(op) => ApplyOp(q, op)
    case Expiry(now, script) => HandleReadIntended(q, now, script)
  }

  predicate IntendedOk(q: Queue, evs: seq<Event>)
    decreases |evs|
  {
    evs == [] || (EventOk(q, evs[0]) && IntendedOk(StepIntended(q, evs[0]), evs[1..]))
  }

  function RunIntended(q: Queue, evs: seq<Event>): Queue
    requires IntendedOk(q, evs)
    decreases |evs|
  {
    if evs == [] then q else RunIntended(StepIntended(q, evs[0]), evs[1..])
  }

  // Deadlines are valid times: after the epoch.

  predicate ValidOp(op: Op) { op.Add? ==> op.when > 0 }

  predicate ValidOps(ops: seq<Op>) { forall op <- ops :: ValidOp(op) }

  predicate ValidEvent(ev: Event) {
    match ev
    case Outside(op) => ValidOp(op)
    case Expiry(now, script) => now > 0 && forall ops <- script :: ValidOps(ops)
  }

  ghost predicate ValidHeap(q: Queue) { forall t <- q.heap :: q.heap[t].expiration > 0 }

  lemma OpKeepsValid(q: Queue, op: Op)
    requires ValidHeap(q) && OpOk(q, op) && ValidOp(op)
    ensures ValidHeap(ApplyOp(q, op))
  {
  }

  lemma {:induction false} OpsKeepValid(q: Queue, ops: seq<Op>)
    requires ValidHeap(q) && OpsOk(q, ops) && ValidOps(ops)
    ensures ValidHeap(ApplyOps(q, ops))
    decreases |ops|
  {
    if ops != [] {
      assert ops[0] in ops && forall op <- ops[1..] :: op in ops;
      OpKeepsValid(q, ops[0]);
      OpsKeepValid(ApplyOp(q, ops[0]), ops[1..]);
    }
  }

  lemma {:induction false} CallbacksKeepValid(q: Queue, todo: seq<Entry>, script: seq<seq<Op>>)
    requires |script| == |todo| && ScriptOk(q, todo, script)
    requires ValidHeap(q) && forall ops <- script :: ValidOps(ops)
    ensures ValidHeap(RunCallbacks(q, todo, script))
    decreases |todo|
  {
    if todo != [] {
      assert script[0] in script && forall ops <- script[1..] :: ops in script;
      OpsKeepValid(Fire(q, todo[0]), script[0]);
      CallbacksKeepValid(ApplyOps(Fire(q, todo[0]), script[0]), todo[1..], script[1..]);
    }
  }

  lemma {:induction false} ResetKeepsValid(q: Queue, now: int, changed: bool)
    requires ValidHeap(q) && now > 0
    ensures ValidHeap(ResetAll(q, now, changed).0)
    decreases |q.batch|
  {
    if q.batch != [] {
      ResetKeepsValid(ResetOne(q, now), now, ResetChanged(q, now) || changed);
    }
  }

  lemma CallbacksIntended(q: Queue, now: int, script: seq<seq<Op>>)
    requires AtRest(q) && ValidHeap(q) && EventOk(q, Expiry(now, script)) && ValidEvent(Expiry(now, script))
    ensures InBatch(AfterCallbacks(q, now, script)) && ValidHeap(AfterCallbacks(q, now, script))
  {
    var b := Begin(q, now);
    BeginKeeps(q, now);
    CallbacksRefine(b, b.batch, script);
    CallbacksKeepValid(b, b.batch, script);
  }

  lemma ResetIntended(m: Queue, now: int)
    requires InBatch(m) && ValidHeap(m) && now > 0
    ensures var r := ResetAll(m.(calling := false), now, false).0; AtRest(r) && ValidHeap(r)
  {
    NotCalling(m);
    ResetAllRefines(m.(calling := false), now, false);
    ResetKeepsValid(m.(calling := false), now, false);
  }

  lemma RearmIntended(q: Queue)
    requires AtRest(q) && ValidHeap(q)
    ensures AtRest(Rearm(q, true)) && ValidHeap(Rearm(q, true)) && ArmedOk(Rearm(q, true))
  {
    RearmSame(q, true);
  }

  lemma ExpiryIntended(q: Queue, now: int, script: seq<seq<Op>>)
    requires AtRest(q) && ValidHeap(q) && EventOk(q, Expiry(now, script)) && ValidEvent(Expiry(now, script))
    ensures var r := HandleReadIntended(q, now, script); AtRest(r) && ValidHeap(r) && ArmedOk(r)
  {
    CallbacksIntended(q, now, script);
    var m := AfterCallbacks(q, now, script);
    ResetIntended(m, now);
    RearmIntended(ResetAll(m.(calling := false), now, false).0);
  }

  lemma {:induction false} IntendedFrom(q: Queue, evs: seq<Event>)
    requires AtRest(q) && ValidHeap(q) && ArmedOk(q)
    requires IntendedOk(q, evs) && forall ev <- evs :: ValidEvent(ev)
    ensures ArmedOk(RunIntended(q, evs))
    decreases |evs|
  {
    if evs != [] {
      var r := StepIntended(q, evs[0]);
      assert evs[0] in evs && forall ev <- evs[1..] :: ev in evs;
      match evs[0] {
        case Outside(op) =>
          OpKeeps(q, op);
          OpRefines(q, op);
          OpKeepsArmed(q, op);
          OpKeepsValid(q, op);
        case Expiry(now, script) => ExpiryIntended(q, now, script);
      }
      IntendedFrom(r, evs[1..]);
    }
  }

  /** With the intended guard the earliest deadline is armed in every state of every run
      from the empty queue. */
  lemma IntendedRearm(evs: seq<Event>)
    requires IntendedOk(EMPTY, evs) && forall ev <- evs :: ValidEvent(ev)
    ensures ArmedOk(RunIntended(EMPTY, evs))
  {
    IntendedFrom(EMPTY, evs);
  }

  /** The guard as written loses a deadline: a one-shot timer fires while another waits. */
  lemma SurvivorUnarmed()
    ensures var q := AddTimer(AddTimer(EMPTY.(clock := 500), 1, 1000, 0.0), 2, 2000, 0.0);
      && ArmedOk(q) && DueCount(q.timers, 1000) == 1
      && ScriptOk(Begin(q, 1000), Begin(q, 1000).batch, [[]])
      && !ArmedOk(HandleRead(q, 1000, [[]]))
  {
    var q1 := AddTimer(EMPTY.(clock := 500), 1, 1000, 0.0);
    assert q1.timers == [Entry(1000, 1)] && q1.timers[1..] == [];
    assert InsertEntry(q1.timers[1..], Entry(2000, 2)) == [Entry(2000, 2)];
    var q := AddTimer(q1, 2, 2000, 0.0);
    assert q.timers == [Entry(1000, 1), Entry(2000, 2)];
    assert q.timers[1..] == [Entry(2000, 2)];
    assert DueCount(q.timers[1..], 1000) == 0;
    var b := Begin(q, 1000);
    assert b.batch == [Entry(1000, 1)] && b.batch[1..] == [];
    var script: seq<seq<Op>> := [[]];
    assert script[1..] == [];
    var f := Fire(b, b.batch[0]);
    assert ApplyOps(f, script[0]) == f;
    assert RunCallbacks(b, b.batch, script) == RunCallbacks(f, [], []) == f;
    var c := f.(calling := false);
    assert !c.heap[1].Repeat();
    var r := ResetOne(c, 1000);
    assert r.batch == [];
    assert ResetAll(c, 1000, false) == (r, false);
  }
}
