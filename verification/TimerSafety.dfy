/**
 What every operation of the timer queue keeps, and the plain map it implements.
 */
module TimerSafety {
  import opened TimerSpec

  // ------------------------------------------------------------- the ordered set

  lemma SortedTail(ts: seq<Entry>)
    requires Sorted(ts) && ts != []
    ensures Sorted(ts[1..]) && ts[0] !in ts[1..]
    ensures forall e <- ts[1..] :: Less(ts[0], e)
    ensures forall e :: e in ts <==> e == ts[0] || e in ts[1..]
  {
    forall i, j | 0 <= i < j < |ts| - 1
      ensures Less(ts[1..][i], ts[1..][j])
    {
      assert Less(ts[i + 1], ts[j + 1]);
    }
    assert ts == [ts[0]] + ts[1..];
  }

  lemma SortedCons(e: Entry, ts: seq<Entry>)
    requires Sorted(ts) && forall x <- ts :: Less(e, x)
    ensures Sorted([e] + ts)
  {
  }

  lemma {:induction false} InsertSorted(ts: seq<Entry>, e: Entry)
    requires Sorted(ts) && e !in ts
    ensures Sorted(InsertEntry(ts, e))
    ensures forall x :: x in InsertEntry(ts, e) <==> x in ts || x == e
    ensures InsertEntry(ts, e)[0] == if ts == [] || Less(e, ts[0]) then e else ts[0]
  {
    if ts == [] {
    } else if Less(e, ts[0]) {
      SortedTail(ts);
      SortedCons(e, ts);
    } else {
      SortedTail(ts);
      InsertSorted(ts[1..], e);
      SortedCons(ts[0], InsertEntry(ts[1..], e));
    }
  }

  /** A set holds an entry once. */
  lemma {:induction false} InsertTwice(ts: seq<Entry>, e: Entry)
    requires Sorted(ts) && e in ts
    ensures InsertEntry(ts, e) == ts
  {
    if ts[0] != e {
      SortedTail(ts);
      assert ts == [ts[0]] + ts[1..];
      var k :| 0 < k < |ts| && ts[k] == e;
      assert Less(ts[0], ts[k]) && ts[1..][k - 1] == e;
      InsertTwice(ts[1..], e);
    }
  }

  lemma {:induction false} RemoveSorted(ts: seq<Entry>, e: Entry)
    requires Sorted(ts)
    ensures Sorted(RemoveEntry(ts, e))
    ensures forall x :: x in RemoveEntry(ts, e) <==> x in ts && x != e
    ensures RemoveEntry(ts, e) != [] ==> ts[0].when <= RemoveEntry(ts, e)[0].when
  {
    if ts != [] {
      SortedTail(ts);
      if ts[0] != e {
        RemoveSorted(ts[1..], e);
        SortedCons(ts[0], RemoveEntry(ts[1..], e));
      }
    }
  }

  lemma SortedSplit(ts: seq<Entry>, n: nat)
    requires Sorted(ts) && n <= |ts|
    ensures Sorted(ts[..n]) && Sorted(ts[n..])
    ensures forall e :: e in ts <==> e in ts[..n] || e in ts[n..]
    ensures forall e <- ts[..n] :: e !in ts[n..]
  {
    assert ts == ts[..n] + ts[n..];
    forall i, j | 0 <= i < j < |ts| - n
      ensures Less(ts[n..][i], ts[n..][j])
    {
      assert Less(ts[n + i], ts[n + j]);
    }
    forall e | e in ts[..n]
      ensures e !in ts[n..]
    {
      var i :| 0 <= i < n && ts[i] == e;
      forall j | 0 <= j < |ts| - n
        ensures ts[n..][j] != e
      {
        assert Less(ts[i], ts[n + j]);
      }
    }
  }

  // ------------------------------------------------------------ adding and freeing

  /** Putting a living timer, not placed anywhere, into the set. */
  ghost predicate Loose(q: Queue, t: Address) {
    && t in q.heap && Sorted(q.timers) && Sorted(q.batch)
    && Keyed(q.timers, q.heap) && Keyed(q.batch, q.heap)
    && (forall e <- q.timers :: e !in q.batch && e.timer != t) && (forall e <- q.batch :: e.timer != t)
    && (forall u :: u in q.heap && u != t ==> Entry(q.heap[u].expiration, u) in q.timers || Entry(q.heap[u].expiration, u) in q.batch)
  }

  lemma InsertPlaces(q: Queue, t: Address)
    requires Loose(q, t)
    ensures Partition(Insert(q, t)) && Insert(q, t).timers != []
  {
    InsertSorted(q.timers, Entry(q.heap[t].expiration, t));
  }

  lemma FreeLoose(q: Queue, t: Address)
    requires Loose(q, t)
    ensures Partition(Free(q, t))
  {
  }

  lemma NoDupSnoc<T(!new)>(s: seq<T>, x: T)
    requires NoDup(s) && x !in s
    ensures NoDup(s + [x])
  {
  }

  lemma FreeAccounted(q: Queue, t: Address)
    requires Accounted(q) && t in q.heap
    ensures Accounted(Free(q, t))
  {
    var r := Free(q, t);
    var n := q.heap[t].sequence;
    NoDupSnoc(q.freed, n);
    forall m | 1 <= m <= r.created && m !in r.freed
      ensures exists u :: u in r.heap && r.heap[u].sequence == m
    {
      assert m !in q.freed by { assert forall x <- q.freed :: x in r.freed; }
      var u :| u in q.heap && q.heap[u].sequence == m;
      assert r.freed[|q.freed|] == n;
      assert u in r.heap;
    }
  }

  function Created(q: Queue, t: Address, when: int, interval: real): Queue {
    q.(heap := q.heap[t := Timer(when, interval, q.created + 1)], created := q.created + 1)
  }

  lemma AddAccounted(q: Queue, t: Address, when: int, interval: real)
    requires Accounted(q) && t !in q.heap
    ensures Accounted(Created(q, t, when, interval))
  {
    var r := Created(q, t, when, interval);
    forall u, v | u in r.heap && v in r.heap && u != v
      ensures r.heap[u].sequence != r.heap[v].sequence
    {
    }
    forall m | 1 <= m <= r.created && m !in r.freed
      ensures exists u :: u in r.heap && r.heap[u].sequence == m
    {
      if m == r.created {
        assert r.heap[t].sequence == m;
      } else {
        var u :| u in q.heap && q.heap[u].sequence == m;
        assert r.heap[u].sequence == m;
      }
    }
  }

  lemma OnlyHeapCounts(q: Queue, r: Queue)
    requires Accounted(q) && r.created == q.created && r.freed == q.freed && r.heap == q.heap
    ensures Accounted(r)
  {
  }

  lemma SameAccounted(q: Queue, r: Queue)
    requires Accounted(q) && r.created == q.created && r.freed == q.freed && r.heap.Keys == q.heap.Keys
    requires forall t <- q.heap :: r.heap[t].sequence == q.heap[t].sequence
    ensures Accounted(r)
  {
    forall m | 1 <= m <= r.created && m !in r.freed
      ensures exists u :: u in r.heap && r.heap[u].sequence == m
    {
      var u :| u in q.heap && q.heap[u].sequence == m;
      assert r.heap[u].sequence == m;
    }
  }

  lemma AddLoose(q: Queue, t: Address, timer: Timer)
    requires Partition(q) && t !in q.heap
    ensures Loose(q.(heap := q.heap[t := timer]), t)
  {
  }

  lemma AddPartition(q: Queue, t: Address, when: int, interval: real)
    requires Partition(q) && t !in q.heap
    ensures Partition(AddTimer(q, t, when, interval))
  {
    AddLoose(q, t, Timer(when, interval, q.created + 1));
    InsertPlaces(Created(q, t, when, interval), t);
  }

  lemma AddKeeps(q: Queue, t: Address, when: int, interval: real)
    requires Inv(q) && t !in q.heap
    ensures Inv(AddTimer(q, t, when, interval))
  {
    AddPartition(q, t, when, interval);
    AddAccounted(q, t, when, interval);
    OnlyHeapCounts(Created(q, t, when, interval), AddTimer(q, t, when, interval));
  }

  lemma CancelKeeps(q: Queue, t: Address)
    requires Inv(q) && t in q.heap
    ensures Inv(Cancel(q, t))
  {
    var e := Entry(q.heap[t].expiration, t);
    if e in q.timers {
      var r := q.(timers := RemoveEntry(q.timers, e));
      RemoveSorted(q.timers, e);
      assert Loose(r, t);
      FreeLoose(r, t);
      SameAccounted(q, r);
      FreeAccounted(r, t);
    } else {
      SameAccounted(q, Cancel(q, t));
    }
  }

  lemma OpKeeps(q: Queue, op: Op)
    requires Inv(q) && OpOk(q, op)
    ensures Inv(ApplyOp(q, op))
  {
    match op
    case Add(t, when, interval) => AddKeeps(q, t, when, interval);
    case Drop(t) => CancelKeeps(q, t);
    case Wait(d) => SameAccounted(q, ApplyOp(q, op));
  }

  // ------------------------------------------------------------------ the batch

  lemma BeginKeeps(q: Queue, now: int)
    requires Inv(q) && q.batch == []
    ensures Inv(Begin(q, now))
  {
    var r := Begin(q, now);
    SortedSplit(q.timers, DueCount(q.timers, now));
    SameAccounted(q, r);
  }

  lemma BatchTail(q: Queue)
    requires Partition(q) && q.batch != []
    ensures Loose(q.(batch := q.batch[1..]), q.batch[0].timer)
  {
    SortedTail(q.batch);
    var e := q.batch[0];
    forall x | x in q.timers || x in q.batch[1..]
      ensures x.timer != e.timer
    {
      assert q.heap[x.timer].expiration == x.when;
    }
  }

  lemma RestartLoose(q: Queue, t: Address, now: int)
    requires Loose(q, t)
    ensures Loose(q.(heap := q.heap[t := q.heap[t].Restart(now)]), t)
  {
  }

  lemma RestartKeeps(q: Queue, t: Address, now: int)
    requires Loose(q, t) && Accounted(q)
    ensures Inv(Insert(q.(heap := q.heap[t := q.heap[t].Restart(now)]), t))
  {
    var q2 := q.(heap := q.heap[t := q.heap[t].Restart(now)]);
    RestartLoose(q, t, now);
    InsertPlaces(q2, t);
    SameAccounted(q, Insert(q2, t));
  }

  lemma ResetOneKeeps(q: Queue, now: int)
    requires Inv(q) && q.batch != []
    ensures Inv(ResetOne(q, now))
  {
    var t := q.batch[0].timer;
    var q1 := q.(batch := q.batch[1..]);
    BatchTail(q);
    SameAccounted(q, q1);
    RestartKeeps(q1, t, now);
    FreeLoose(q1, t);
    FreeAccounted(q1, t);
  }
}
