/**
 Timer and TimerQueue in place.  Timer objects live in `heap`, keyed by their
 address; a deleted timer is taken out of it.
 */
module TimerQueues {
  import opened TimerSpec
  import opened Wrappers
  import opened TimerSafety
  import opened TimerRuns

  class Timer {
    const sequence: nat
    const interval: real
    const repeat: bool := interval > 0.0
    var expration: int

    constructor (when: int, interval: real, sequence: nat)
      ensures Value() == TimerSpec.Timer(when, interval, sequence)
    {
      this.sequence, this.interval, expration := sequence, interval, when;
      new;
    }

    function Value(): TimerSpec.Timer
      reads this
    {
      TimerSpec.Timer(expration, interval, sequence)
    }

    method Restart(now: int)
      modifies this
      ensures Value() == old(Value()).Restart(now)
    {
      if repeat {
        expration := now + (interval * MICROS).Floor;
      } else {
        expration := 0;
      }
    }
  }

  class TimerQueue {
    var timers: seq<Entry>
    var heap: map<Address, Timer>
    var callingExpiredTimers: bool
    var cancelingTimers: set<Address>
    var armed: Option<int>
    var created: nat
    var freed: seq<nat>
    var fired: seq<Entry>
    var clock: int
    var batch: seq<Entry>  // handleRead's local list, without what reset has handled

    constructor ()
      ensures Valid() && Value() == EMPTY
    {
      timers, heap, callingExpiredTimers, cancelingTimers := [], map[], false, {};
      armed, created, freed, fired, clock, batch := None, 0, [], [], 0, [];
    }

    /** Timers are distinct objects. */
    ghost predicate Valid()
      reads this
    {
      forall t, u :: t in heap && u in heap && t != u ==> heap[t] != heap[u]
    }

    ghost function HeapValue(): map<Address, TimerSpec.Timer>
      reads this, heap.Values
    {
      map t | t in heap :: heap[t].Value()
    }

    ghost function Value(): Queue
      reads this, heap.Values
    {
      Queue(timers, HeapValue(), batch, callingExpiredTimers, cancelingTimers, armed, created, freed, fired, clock)
    }

    method ResetTimerfd(when: int)
      modifies this`armed
      ensures Value() == Arm(old(Value()), when)
    {
      armed := Some(if when < clock + FLOOR then clock + FLOOR else when);
    }

    method Insert(t: Address) returns (earliestChanged: bool)
      requires t in heap
      modifies this`timers
      ensures Value() == TimerSpec.Insert(old(Value()), t)
      ensures earliestChanged == EarliestChanged(old(timers), heap[t].expration)
    {
      earliestChanged := false;
      if timers == [] || heap[t].expration < timers[0].when {
        earliestChanged := true;
      }
      timers := InsertEntry(timers, Entry(heap[t].expration, t));
    }

    /** `t` is the address the allocator returns for the new timer. */
    method AddTimer(t: Address, when: int, interval: real)
      requires Valid() && t !in heap
      modifies this
      ensures Valid() && Value() == TimerSpec.AddTimer(old(Value()), t, when, interval)
      ensures fresh(heap.Values - old(heap.Values)) && batch == old(batch)
    {
      created := created + 1;
      var timer := new Timer(when, interval, created);
      heap := heap[t := timer];
      assert HeapValue() == old(HeapValue())[t := timer.Value()];
      var earliestChanged := Insert(t);
      if earliestChanged {
        ResetTimerfd(timer.expration);
      }
    }

    method Delete(t: Address)
      requires Valid() && t in heap
      modifies this`heap, this`freed
      ensures Valid() && Value() == Free(old(Value()), t)
      ensures heap == old(heap) - {t}
    {
      freed := freed + [heap[t].sequence];
      heap := heap - {t};
      assert HeapValue() == old(HeapValue()) - {t};
    }

    method Cancel(t: Address)
      requires Valid() && t in heap
      modifies this`timers, this`heap, this`freed, this`cancelingTimers
      ensures Valid() && Value() == TimerSpec.Cancel(old(Value()), t)
      ensures heap.Values <= old(heap.Values)
    {
      var e := Entry(heap[t].expration, t);
      if e in timers {
        timers := RemoveEntry(timers, e);
        Delete(t);
      } else if callingExpiredTimers {
        cancelingTimers := cancelingTimers + {t};
      }
    }

    method RunOp(op: Op)
      requires Valid() && OpOk(Value(), op)
      modifies this
      ensures Valid() && Value() == ApplyOp(old(Value()), op)
      ensures fresh(heap.Values - old(heap.Values)) && batch == old(batch)
    {
      match op {
        case Add(t, when, interval) => AddTimer(t, when, interval);
        case Drop(t) => Cancel(t);
        case Wait(d) => clock := clock + d;
      }
    }

    /** What one callback does to the queue. */
    method RunOps(ops: seq<Op>)
      requires Valid() && OpsOk(Value(), ops)
      modifies this
      ensures Valid() && Value() == ApplyOps(old(Value()), ops)
      ensures fresh(heap.Values - old(heap.Values)) && batch == old(batch)
      decreases |ops|
    {
      if ops != [] {
        RunOp(ops[0]);
        RunOps(ops[1..]);
      }
    }

    method GetExpired(now: int) returns (expired: seq<Entry>)
      modifies this`timers, this`batch
      ensures expired == old(timers)[..DueCount(old(timers), now)] && batch == expired
      ensures timers == old(timers)[DueCount(old(timers), now)..]
    {
      var n := DueCount(timers, now);
      expired := timers[..n];
      timers := timers[n..];
      batch := expired;
    }

    method RestartTimer(t: Address, now: int)
      requires Valid() && t in heap
      modifies heap[t]
      ensures Valid() && Value() == old(Value()).(heap := old(HeapValue())[t := old(heap[t].Value()).Restart(now)])
    {
      heap[t].Restart(now);
      assert HeapValue() == old(HeapValue())[t := heap[t].Value()];
    }

    method PutBack(t: Address, now: int) returns (changed: bool)
      requires Valid() && t in heap
      modifies this`timers, heap[t]
      ensures Valid()
      ensures Value() == TimerSpec.Insert(old(Value()).(heap := old(HeapValue())[t := old(heap[t].Value()).Restart(now)]), t)
      ensures changed == EarliestChanged(old(timers), old(heap[t].Value()).Restart(now).expiration)
    {
      RestartTimer(t, now);
      changed := Insert(t);
    }

    method TakeHead() returns (t: Address)
      requires Valid() && batch != []
      modifies this`batch
      ensures Valid() && Value() == old(Value()).(batch := old(batch)[1..]) && t == old(batch)[0].timer
    {
      t := batch[0].timer;
      batch := batch[1..];
    }

    /** Puts back or deletes the timer of the next batch entry. */
    method ResetNext(now: int) returns (changed: bool)
      requires Valid() && batch != [] && batch[0].timer in heap
      modifies this, heap[batch[0].timer]
      ensures Valid() && Value() == ResetOne(old(Value()), now)
      ensures changed == ResetChanged(old(Value()), now)
      ensures batch == old(batch)[1..] && heap.Keys >= old(heap.Keys) - {old(batch)[0].timer} && heap.Values <= old(heap.Values)
    {
      var t := TakeHead();
      changed := false;
      if heap[t].repeat && t !in cancelingTimers {
        changed := PutBack(t, now);
      } else {
        Delete(t);
      }
    }

    method Reset(expired: seq<Entry>, now: int)
      requires Valid() && batch == expired && forall e <- expired :: e.timer in heap
      requires forall i, j :: 0 <= i < j < |expired| ==> expired[i].timer != expired[j].timer
      modifies this, heap.Values
      ensures Valid()
      ensures Value() == var (q, changed) := ResetAll(old(Value()), now, false); Rearm(q, changed)
    {
      var earliestChanged := false;
      var i := 0;
      while i < |expired|
        invariant 0 <= i <= |expired| && Valid() && batch == expired[i..] && heap.Values <= old(heap.Values)
        invariant forall j :: i <= j < |expired| ==> expired[j].timer in heap
        invariant ResetAll(Value(), now, earliestChanged) == ResetAll(old(Value()), now, false)
      {
        var changed := ResetNext(now);
        earliestChanged := changed || earliestChanged;
        i := i + 1;
      }
      if earliestChanged && timers != [] {
        var nextExpired := timers[0].when;
        if nextExpired > 0 {
          ResetTimerfd(nextExpired);
        }
      }
    }

    /** The kernel timer is read and the due timers are taken out. */
    method BeginExpiry(now: int) returns (expired: seq<Entry>)
      requires Valid()
      modifies this`armed, this`clock, this`timers, this`batch, this`callingExpiredTimers, this`cancelingTimers
      ensures Valid() && Value() == Begin(old(Value()), now) && expired == batch
      ensures callingExpiredTimers && cancelingTimers == {}
    {
      armed := None;
      clock := if clock < now then now else clock;
      expired := GetExpired(now);
      callingExpiredTimers := true;
      cancelingTimers := {};
      assert HeapValue() == old(HeapValue());
    }

    method RunCallback(e: Entry, ops: seq<Op>)
      requires Valid() && OpsOk(Fire(Value(), e), ops)
      modifies this
      ensures Valid() && Value() == ApplyOps(Fire(old(Value()), e), ops)
      ensures fresh(heap.Values - old(heap.Values)) && batch == old(batch)
    {
      fired := fired + [e];
      assert Value() == Fire(old(Value()), e);
      RunOps(ops);
    }

    method RunExpired(expired: seq<Entry>, script: seq<seq<Op>>)
      requires Valid() && |script| == |expired| && ScriptOk(Value(), expired, script)
      modifies this
      ensures Valid() && Value() == RunCallbacks(old(Value()), expired, script)
      ensures fresh(heap.Values - old(heap.Values)) && batch == old(batch)
    {
      var i := 0;
      ghost var begun, current := Value(), Value();
      assert expired[i..] == expired && script[i..] == script;
      while i < |expired|
        invariant 0 <= i <= |expired| && Valid() && batch == old(batch) && fresh(heap.Values - old(heap.Values))
        invariant current == Value() && ScriptOk(current, expired[i..], script[i..])
        invariant RunCallbacks(current, expired[i..], script[i..]) == RunCallbacks(begun, expired, script)
      {
        assert expired[i..][0] == expired[i] && expired[i..][1..] == expired[i + 1..];
        assert script[i..][0] == script[i] && script[i..][1..] == script[i + 1..];
        RunCallback(expired[i], script[i]);
        current := Value();
        i := i + 1;
      }
    }

    /** The callbacks are done; the batch's timers are all still allocated, and distinct. */
    method EndCallbacks()
      requires Valid() && Inv(Value())
      modifies this`callingExpiredTimers
      ensures Valid() && Value() == old(Value()).(calling := false) && batch == old(batch)
      ensures forall e <- batch :: e.timer in heap
      ensures forall i, j :: 0 <= i < j < |batch| ==> batch[i].timer != batch[j].timer
    {
      BatchDistinct(Value());
      callingExpiredTimers := false;
    }

    method HandleRead(now: int, script: seq<seq<Op>>)
      requires Valid() && AtRest(Value())
      requires |script| == DueCount(timers, now) && ScriptOk(Begin(Value(), now), Begin(Value(), now).batch, script)
      modifies this, heap.Values
      ensures Valid() && Value() == TimerSpec.HandleRead(old(Value()), now, script)
    {
      ghost var before := Value();
      BeginKeeps(before, now);
      var expired := BeginExpiry(now);
      ghost var begun := Value();
      CallbacksRefine(begun, expired, script);
      RunExpired(expired, script);
      ghost var done := Value();
      EndCallbacks();
      Reset(expired, now);
      HandleReadParts(before, now, script, begun, done);
    }
  }

  /** The expiry of the specification, put together from its three parts. */
  lemma HandleReadParts(before: Queue, now: int, script: seq<seq<Op>>, begun: Queue, done: Queue)
    requires begun == Begin(before, now) && |script| == DueCount(before.timers, now) && ScriptOk(begun, begun.batch, script)
    requires done == RunCallbacks(begun, begun.batch, script)
    ensures TimerSpec.HandleRead(before, now, script) ==
      var (q, changed) := ResetAll(done.(calling := false), now, false); Rearm(q, changed)
  {
  }

  lemma BatchDistinct(q: Queue)
    requires Inv(q)
    ensures forall e <- q.batch :: e.timer in q.heap
    ensures forall i, j :: 0 <= i < j < |q.batch| ==> q.batch[i].timer != q.batch[j].timer
  {
    forall i, j | 0 <= i < j < |q.batch|
      ensures q.batch[i].timer != q.batch[j].timer
    {
      assert Less(q.batch[i], q.batch[j]) && q.batch[i] in q.batch && q.batch[j] in q.batch;
    }
  }
}
