/**
 The timer queue as a function of values: an ordered set of (deadline, timer)
 entries, the live timer objects, the batch of expired timers being run, and the
 kernel timer that is to wake the loop for the earliest deadline.

 Callbacks run inside the batch may add and cancel timers; what they do is an
 argument (`script`, one list of operations for each timer that fires).
 */
module TimerSpec {
  import opened Wrappers

  type Address = nat

  const FLOOR: int := 100  // the kernel timer is never set closer than 100 microseconds
  const MICROS: real := 1000000.0

  /** A timer object; it repeats when its interval (seconds) is positive. */
  datatype Timer = Timer(expiration: int, interval: real, sequence: nat) {
    predicate Repeat() { interval > 0.0 }

    function Restart(now: int): Timer {
      this.(expiration := if Repeat() then now + (interval * MICROS).Floor else 0)
    }
  }

  datatype Entry = Entry(when: int, timer: Address)

  /** The order of std::set on (time, pointer) pairs. */
  predicate Less(a: Entry, b: Entry) { a.when < b.when || (a.when == b.when && a.timer < b.timer) }

  ghost predicate Sorted(ts: seq<Entry>) { forall i, j :: 0 <= i < j < |ts| ==> Less(ts[i], ts[j]) }

  /** `heap` holds the live timer objects; `batch` the expired ones not yet reset;
      `canceling` cancelingTimers_; `armed` the kernel timer's expiry.  Outside the source's
      fields: `created` and `freed` (sequence numbers, in order), `fired`, and the time `clock`. */
  datatype Queue = Queue(
    timers: seq<Entry>, heap: map<Address, Timer>, batch: seq<Entry>, calling: bool,
    canceling: set<Address>, armed: Option<int>, created: nat, freed: seq<nat>,
    fired: seq<Entry>, clock: int)

  const EMPTY := Queue([], map[], [], false, {}, None, 0, [], [], 0)

  // ------------------------------------------------------------------ operations

  function InsertEntry(ts: seq<Entry>, e: Entry): seq<Entry> {
    if ts == [] then [e]
    else if ts[0] == e then ts
    else if Less(e, ts[0]) then [e] + ts
    else [ts[0]] + InsertEntry(ts[1..], e)
  }

  function RemoveEntry(ts: seq<Entry>, e: Entry): seq<Entry> {
    if ts == [] then [] else if ts[0] == e then ts[1..] else [ts[0]] + RemoveEntry(ts[1..], e)
  }

  /** resetTimerfd. */
  function Arm(q: Queue, when: int): Queue {
    q.(armed := Some(if when < q.clock + FLOOR then q.clock + FLOOR else when))
  }

  predicate EarliestChanged(ts: seq<Entry>, when: int) { ts == [] || when < ts[0].when }

  function Insert(q: Queue, t: Address): Queue
    requires t in q.heap
  {
    q.(timers := InsertEntry(q.timers, Entry(q.heap[t].expiration, t)))
  }

  function AddTimer(q: Queue, t: Address, when: int, interval: real): Queue {
    var q1 := q.(heap := q.heap[t := Timer(when, interval, q.created + 1)], created := q.created + 1);
    var q2 := Insert(q1, t);
    if EarliestChanged(q.timers, when) then Arm(q2, when) else q2
  }

  function Free(q: Queue, t: Address): Queue
    requires t in q.heap
  {
    q.(heap := q.heap - {t}, freed := q.freed + [q.heap[t].sequence])
  }

  function Cancel(q: Queue, t: Address): Queue
    requires t in q.heap
  {
    var e := Entry(q.heap[t].expiration, t);
    if e in q.timers then Free(q.(timers := RemoveEntry(q.timers, e)), t)
    else if q.calling then q.(canceling := q.canceling + {t})
    else q
  }

  datatype Op = Add(t: Address, when: int, interval: real) | Drop(t: Address) | Wait(d: nat)

  /** The allocator hands out an address not in use; only ids of living timers are cancelled. */
  predicate OpOk(q: Queue, op: Op) {
    match op
    case Add(t, _, _) => t !in q.heap
    case Drop(t) => t in q.heap
    case Wait(_) => true
  }

  function ApplyOp(q: Queue, op: Op): Queue
    requires OpOk(q, op)
  {
    match op
    case Add(t, when, interval) => AddTimer(q, t, when, interval)
    case Drop(t) => Cancel(q, t)
    case Wait(d) => q.(clock := q.clock + d)
  }

  predicate OpsOk(q: Queue, ops: seq<Op>)
    decreases |ops|
  {
    ops == [] || (OpOk(q, ops[0]) && OpsOk(ApplyOp(q, ops[0]), ops[1..]))
  }

  function ApplyOps(q: Queue, ops: seq<Op>): Queue
    requires OpsOk(q, ops)
    decreases |ops|
  {
    if ops == [] then q else ApplyOps(ApplyOp(q, ops[0]), ops[1..])
  }

  /** How many leading entries are due at `now`: lower_bound of (now, largest pointer). */
  function DueCount(ts: seq<Entry>, now: int): (n: nat)
    ensures n <= |ts|
    ensures forall i :: 0 <= i < n ==> ts[i].when <= now
    ensures n < |ts| ==> ts[n].when > now
  {
    if ts == [] || ts[0].when > now then 0 else 1 + DueCount(ts[1..], now)
  }

  /** Up to the callbacks: the kernel timer has been read, the due timers are taken out. */
  function Begin(q: Queue, now: int): Queue {
    var n := DueCount(q.timers, now);
    q.(timers := q.timers[n..], batch := q.timers[..n], calling := true, canceling := {}, armed := None,
       clock := if q.clock < now then now else q.clock)
  }

  function Fire(q: Queue, e: Entry): Queue { q.(fired := q.fired + [e]) }

  predicate ScriptOk(q: Queue, todo: seq<Entry>, script: seq<seq<Op>>)
    requires |script| == |todo|
    decreases |todo|
  {
    todo == [] ||
    (OpsOk(Fire(q, todo[0]), script[0]) && ScriptOk(ApplyOps(Fire(q, todo[0]), script[0]), todo[1..], script[1..]))
  }

  function RunCallbacks(q: Queue, todo: seq<Entry>, script: seq<seq<Op>>): Queue
    requires |script| == |todo| && ScriptOk(q, todo, script)
    decreases |todo|
  {
    if todo == [] then q
    else RunCallbacks(ApplyOps(Fire(q, todo[0]), script[0]), todo[1..], script[1..])
  }

  /** The oldest timer of the batch is put back or freed. */
  function ResetOne(q: Queue, now: int): Queue
    requires q.batch != []
  {
    var t := q.batch[0].timer;
    var q1 := q.(batch := q.batch[1..]);
    if t !in q.heap then q1
    else if q.heap[t].Repeat() && t !in q.canceling then
      Insert(q1.(heap := q1.heap[t := q1.heap[t].Restart(now)]), t)
    else Free(q1, t)
  }

  function ResetChanged(q: Queue, now: int): bool
    requires q.batch != []
  {
    var t := q.batch[0].timer;
    t in q.heap && q.heap[t].Repeat() && t !in q.canceling && EarliestChanged(q.timers, q.heap[t].Restart(now).expiration)
  }

  /** The loop of reset; the flag is earliestChanged. */
  function ResetAll(q: Queue, now: int, changed: bool): (Queue, bool)
    decreases |q.batch|
  {
    if q.batch == [] then (q, changed)
    else ResetAll(ResetOne(q, now), now, ResetChanged(q, now) || changed)
  }

  function Rearm(q: Queue, changed: bool): Queue {
    if changed && q.timers != [] && q.timers[0].when > 0 then Arm(q, q.timers[0].when) else q
  }

  function Finish(q: Queue, now: int): Queue {
    var (r, changed) := ResetAll(q.(calling := false), now, false);
    Rearm(r, changed)
  }

  function HandleRead(q: Queue, now: int, script: seq<seq<Op>>): Queue
    requires |script| == DueCount(q.timers, now) && ScriptOk(Begin(q, now), Begin(q, now).batch, script)
  {
    Finish(RunCallbacks(Begin(q, now), Begin(q, now).batch, script), now)
  }

  // ------------------------------------------------------------------- invariant

  ghost function Ptrs(ts: seq<Entry>): set<Address> { set e <- ts :: e.timer }

  /** Every entry is keyed by its timer's own deadline. */
  ghost predicate Keyed(ts: seq<Entry>, heap: map<Address, Timer>) {
    forall e <- ts :: e.timer in heap && heap[e.timer].expiration == e.when
  }

  ghost predicate NoDup<T(!new)>(s: seq<T>) { forall i, j :: 0 <= i < j < |s| ==> s[i] != s[j] }

  /** Every living timer is in the set or in the batch, and not in both. */
  ghost predicate Partition(q: Queue) {
    && Keyed(q.timers, q.heap) && Keyed(q.batch, q.heap) && Sorted(q.timers) && Sorted(q.batch)
    && (forall e <- q.timers :: e !in q.batch)
    && (forall t :: t in q.heap ==> Entry(q.heap[t].expiration, t) in q.timers || Entry(q.heap[t].expiration, t) in q.batch)
  }

  /** Of the timers created so far each is either living or freed, and freed once. */
  ghost predicate Accounted(q: Queue) {
    && (forall t <- q.heap :: 1 <= q.heap[t].sequence <= q.created && q.heap[t].sequence !in q.freed)
    && (forall t, u :: t in q.heap && u in q.heap && t != u ==> q.heap[t].sequence != q.heap[u].sequence)
    && NoDup(q.freed)
    && (forall n <- q.freed :: 1 <= n <= q.created)
    && (forall n :: 1 <= n <= q.created && n !in q.freed ==> exists t :: t in q.heap && q.heap[t].sequence == n)
  }

  ghost predicate Inv(q: Queue) { Partition(q) && Accounted(q) }
}
