/**
 The timing wheel that shuts down idle connections.

 An entry stands for a connection; it lives as long as some bucket holds it,
 and when the last bucket holding it is dropped the connection is shut down.
 The model is of one wheel shared by the handlers and the timer; what the two
 separate copies made by the source do is told at the end.
 */
module WheelSpec {
  import opened Wrappers

  type Entry = nat

  // Oldest bucket first; activity goes into the last one.
  type Wheel = seq<set<Entry>>

  datatype Event = Connect(e: Entry) | Message(e: Entry) | Tick

  function Fresh(n: nat): Wheel { seq(n, _ => {}) }

  predicate Alive(w: Wheel, e: Entry) { exists i :: 0 <= i < |w| && e in w[i] }

  function Touch(w: Wheel, e: Entry): Wheel
    requires w != []
  {
    w[|w| - 1 := w[|w| - 1] + {e}]
  }

  /** A new bucket comes in at the back and the front one is dropped. */
  function Turn(w: Wheel): Wheel
    requires w != []
  {
    w[1..] + [{}]
  }

  /** The entries that die with the front bucket. */
  function Expired(w: Wheel): set<Entry>
    requires w != []
  {
    set e | e in w[0] && !Alive(w[1..], e)
  }

  /** A message finds its entry through a weak pointer: a dead entry stays dead. */
  function Step(w: Wheel, ev: Event): (r: Wheel)
    requires w != []
    ensures |r| == |w|
  {
    match ev
    case Connect(e) => Touch(w, e)
    case Message(e) => if Alive(w, e) then Touch(w, e) else w
    case Tick => Turn(w)
  }

  function Run(n: nat, history: seq<Event>): (r: Wheel)
    requires n > 0
    ensures |r| == n
  {
    if history == [] then Fresh(n)
    else Step(Run(n, history[..|history| - 1]), history[|history| - 1])
  }

  lemma AliveSplit(w: Wheel, e: Entry)
    requires w != []
    ensures Alive(w, e) <==> e in w[0] || Alive(w[1..], e)
    ensures Alive(Turn(w), e) <==> Alive(w[1..], e)
  {
    var tail: Wheel := w[1..];
    if Alive(w, e) {
      var i :| 0 <= i < |w| && e in w[i];
      assert i > 0 ==> e in tail[i - 1];
    }
    if Alive(tail, e) {
      var i :| 0 <= i < |tail| && e in tail[i];
      assert e in w[i + 1] && e in Turn(w)[i];
    }
    if Alive(Turn(w), e) {
      var i :| 0 <= i < |Turn(w)| && e in Turn(w)[i];
      assert i < |tail| ==> e in tail[i];
    }
  }

  // ------------------------------------------------------- the idle time of one entry

  /** Ticks since the entry's last activity; none before it connects, and none once n
      ticks have passed without activity. */
  function Idle(n: nat, history: seq<Event>, e: Entry): Option<nat> {
    if history == [] then None
    else
      var before := Idle(n, history[..|history| - 1], e);
      match history[|history| - 1]
      case Connect(d) => if d == e then Some(0) else before
      case Message(d) => if d == e && before.Some? then Some(0) else before
      case Tick => if before.Some? && before.value + 1 < n then Some(before.value + 1) else None
  }

  /** The youngest bucket holding `e` is as far from the back as `e` has been idle. */
  ghost predicate Placed(w: Wheel, e: Entry, idle: Option<nat>) {
    var n := |w|;
    match idle
    case None => !Alive(w, e)
    case Some(k) => k < n && e in w[n - 1 - k] && forall i :: n - 1 - k < i < n ==> e !in w[i]
  }

  lemma {:induction false} WheelRefinesIdle(n: nat, history: seq<Event>, e: Entry)
    requires n > 0
    ensures Placed(Run(n, history), e, Idle(n, history, e))
  {
    if history != [] {
      var m := |history| - 1;
      WheelRefinesIdle(n, history[..m], e);
      var w := Run(n, history[..m]);
      if history[m].Tick? {
        TurnPlaces(w, e, Idle(n, history[..m], e));
      }
    }
  }

  lemma TurnPlaces(w: Wheel, e: Entry, idle: Option<nat>)
    requires w != [] && Placed(w, e, idle)
    ensures Placed(Turn(w), e, if idle.Some? && idle.value + 1 < |w| then Some(idle.value + 1) else None)
  {
    var r := Turn(w);
    var n := |w|;
    assert forall i :: 0 <= i < n - 1 ==> r[i] == w[i + 1];
    if idle.Some? && idle.value + 1 < n {
      assert e in r[n - 1 - (idle.value + 1)];
    }
  }

  lemma AliveExactlyIdle(n: nat, history: seq<Event>, e: Entry)
    requires n > 0
    ensures Alive(Run(n, history), e) <==> Idle(n, history, e).Some?
  {
    WheelRefinesIdle(n, history, e);
  }

  function Ticks(history: seq<Event>): nat {
    if history == [] then 0
    else Ticks(history[..|history| - 1]) + (if history[|history| - 1].Tick? then 1 else 0)
  }

  predicate Quiet(history: seq<Event>, e: Entry) {
    forall i :: 0 <= i < |history| ==> history[i] == Tick || history[i].e != e
  }

  lemma {:induction false} IdleGrows(n: nat, history: seq<Event>, later: seq<Event>, e: Entry)
    requires n > 0 && Idle(n, history, e) == Some(0) && Quiet(later, e)
    ensures Idle(n, history + later, e) == if Ticks(later) < n then Some(Ticks(later)) else None
    decreases |later|
  {
    if later == [] {
      assert history + later == history;
    } else {
      var m := |later| - 1;
      var all := history + later;
      assert all[..|all| - 1] == history + later[..m] && all[|all| - 1] == later[m];
      IdleGrows(n, history, later[..m], e);
    }
  }

  /** Exactness: after an activity, a connection that stays silent is kept for as long as
      fewer than n ticks have passed, however the rest of the traffic runs. */
  lemma SilentEntryExactly(n: nat, history: seq<Event>, later: seq<Event>, e: Entry)
    requires n > 0 && Quiet(later, e)
    requires history != [] && Idle(n, history, e) == Some(0)
    ensures Alive(Run(n, history + later), e) <==> Ticks(later) < n
  {
    IdleGrows(n, history, later, e);
    AliveExactlyIdle(n, history + later, e);
  }

  /** A tick shuts down exactly the connections whose last activity lies n ticks back,
      counting itself. */
  lemma TickExpiresExactly(n: nat, history: seq<Event>, e: Entry)
    requires n > 0
    ensures e in Expired(Run(n, history)) <==> Idle(n, history, e) == Some(n - 1)
  {
    WheelRefinesIdle(n, history, e);
    var w := Run(n, history);
    assert forall i :: 0 <= i < n - 1 ==> w[1..][i] == w[i + 1];
    if Idle(n, history, e) == Some(n - 1) {
      assert e in w[0];
    } else if Idle(n, history, e).Some? {
      var k := Idle(n, history, e).value;
      var tail: Wheel := w[1..];
      assert e in tail[n - 2 - k];
    }
  }

  // --------------------------------------------------------- as written: two copies

  /** The handlers use the copy in the loop's context, the timer turns its own copy. */
  datatype TwoWheels = TwoWheels(context: Wheel, timer: Wheel)

  function RunCopies(n: nat, history: seq<Event>): (r: TwoWheels)
    requires n > 0
    ensures |r.context| == |r.timer| == n
  {
    if history == [] then TwoWheels(Fresh(n), Fresh(n))
    else
      var t := RunCopies(n, history[..|history| - 1]);
      var ev := history[|history| - 1];
      if ev.Tick? then t.(timer := Turn(t.timer)) else t.(context := Step(t.context, ev))
  }

  predicate Connected(history: seq<Event>, e: Entry) { Connect(e) in history }

  lemma AliveTouched(w: Wheel, d: Entry, e: Entry)
    requires w != []
    ensures Alive(Touch(w, d), e) <==> Alive(w, e) || d == e
  {
    var r := Touch(w, d);
    if Alive(w, e) {
      var i :| 0 <= i < |w| && e in w[i];
      assert e in r[i];
    }
    if d == e {
      assert e in r[|w| - 1];
    }
  }

  /** With two copies a connected entry never dies: no idle connection is ever shut down,
      and the timer's copy never holds anything to drop. */
  lemma {:induction false} CopiesNeverExpire(n: nat, history: seq<Event>, e: Entry)
    requires n > 0
    ensures Alive(RunCopies(n, history).context, e) <==> Connected(history, e)
    ensures Expired(RunCopies(n, history).timer) == {}
  {
    TimerCopyEmpty(n, history);
    if history != [] {
      var m := |history| - 1;
      CopiesNeverExpire(n, history[..m], e);
      assert history == history[..m] + [history[m]];
      if !history[m].Tick? {
        AliveTouched(RunCopies(n, history[..m]).context, history[m].e, e);
      }
    }
  }

  lemma {:induction false} TimerCopyEmpty(n: nat, history: seq<Event>)
    requires n > 0
    ensures RunCopies(n, history).timer == Fresh(n) && Expired(Fresh(n)) == {}
  {
    if history != [] {
      TimerCopyEmpty(n, history[..|history| - 1]);
      assert Turn(Fresh(n)) == Fresh(n);
    }
  }

  /** So the copies treat an entry as one shared wheel would exactly until it has once been
      idle for n ticks. */
  lemma CopiesAgreeExactly(n: nat, history: seq<Event>, e: Entry)
    requires n > 0
    ensures (Alive(RunCopies(n, history).context, e) <==> Alive(Run(n, history), e))
      <==> (Connected(history, e) ==> Idle(n, history, e).Some?)
  {
    CopiesNeverExpire(n, history, e);
    AliveExactlyIdle(n, history, e);
    IdleImpliesConnected(n, history, e);
  }

  lemma {:induction false} IdleImpliesConnected(n: nat, history: seq<Event>, e: Entry)
    ensures Idle(n, history, e).Some? ==> Connected(history, e)
  {
    if history != [] {
      var m := |history| - 1;
      IdleImpliesConnected(n, history[..m], e);
      assert history == history[..m] + [history[m]];
    }
  }
}

module TimingWheels {
  import opened WheelSpec

  class TimingWheel {
    var buckets: Wheel

    constructor (idleSeconds: nat)
      requires idleSeconds > 0
      ensures buckets == Fresh(idleSeconds)
    {
      buckets := seq(idleSeconds, _ => {});
    }

    /** onConnection: a new entry starts its time. */
    method OnConnection(entry: Entry)
      requires buckets != []
      modifies this
      ensures buckets == Step(old(buckets), Connect(entry))
    {
      buckets := buckets[|buckets| - 1 := buckets[|buckets| - 1] + {entry}];
    }

    /** onMessage on a kept connection: the entry's time starts again, if it still lives. */
    method OnMessage(entry: Entry)
      requires buckets != []
      modifies this
      ensures buckets == Step(old(buckets), Message(entry))
    {
      var locked := exists i :: 0 <= i < |buckets| && entry in buckets[i];
      if locked {
        buckets := buckets[|buckets| - 1 := buckets[|buckets| - 1] + {entry}];
      }
    }

    /** onTimer: returns the entries whose destructors run, each shutting its connection down. */
    method OnTimer() returns (expired: set<Entry>)
      requires buckets != []
      modifies this
      ensures buckets == Step(old(buckets), Tick) && expired == Expired(old(buckets))
      ensures forall e :: e in expired <==> Alive(old(buckets), e) && !Alive(buckets, e)
    {
      expired := Expired(buckets);
      forall e
        ensures e in expired <==> Alive(buckets, e) && !Alive(Turn(buckets), e)
      {
        AliveSplit(buckets, e);
      }
      buckets := buckets[1..] + [{}];
    }
  }
}
