/**
 The double-buffered asynchronous log as a state machine: any number of
 producers append under the mutex while the backend thread cycles through
 swapping the buffers out (under the mutex), writing them, and recycling two.

 A buffer is known by an owner-independent identity of any type `I`, so that
 "two variables never hold the same buffer" can be said.
 */
module LoggingSpec {
  import opened Digits
  import opened Wrappers

  datatype Buf<I> = Buf(id: I, content: string)

  const MAX_BUFFERS_TO_WRITE: nat := 32

  // Where the backend is: before its lock region, after it, after writing.
  datatype Backend = AtHead | Swapped | Wrote

  /** `spare1` and `spare2` are newBuffer1 and newBuffer2, `toWrite` buffersToWrite.  Outside
      the source's fields: `file`, what was written; `batches`, the buffer contents of every
      batch swapped out so far, and `times`, when each was written; `accepted`, all lines shorter than a buffer, in lock order. */
  datatype Log<I> = Log(
    cur: Option<Buf<I>>, next: Option<Buf<I>>, buffers: seq<Buf<I>>,
    spare1: Option<Buf<I>>, spare2: Option<Buf<I>>, toWrite: seq<Buf<I>>,
    backend: Backend, file: string, batches: seq<seq<string>>, times: seq<string>, accepted: string)

  function Contents<I>(bs: seq<Buf<I>>): seq<string> {
    seq(|bs|, i requires 0 <= i < |bs| => bs[i].content)
  }

  function Concat(ss: seq<string>): string {
    if ss == [] then "" else Concat(ss[..|ss| - 1]) + ss[|ss| - 1]
  }

  // ------------------------------------------------------------------ operations

  /** FixedBuffer::append: whole lines or nothing. */
  function Fill<I>(b: Buf<I>, line: string, size: nat): Buf<I> {
    if size - |b.content| > |line| then b.(content := b.content + line) else b
  }

  /** `made` is the buffer the source allocates when no spare one is at hand. */
  function Append<I>(s: Log<I>, line: string, made: I, size: nat): Log<I>
    requires s.cur.Some?
  {
    var a := if |line| < size then s.accepted + line else s.accepted;
    if size - |s.cur.value.content| > |line| then
      s.(cur := Some(Fill(s.cur.value, line, size)), accepted := a)
    else
      var b := if s.next.Some? then s.next.value else Buf(made, "");
      s.(buffers := s.buffers + [s.cur.value], cur := Some(Fill(b, line, size)), next := None, accepted := a)
  }

  /** The backend's lock region. */
  function Swap<I>(s: Log<I>): Log<I>
    requires s.cur.Some?
  {
    var all := s.buffers + [s.cur.value];
    s.(cur := s.spare1, spare1 := None,
       next := if s.next.None? then s.spare2 else s.next,
       spare2 := if s.next.None? then None else s.spare2,
       buffers := [], toWrite := all, backend := Swapped, batches := s.batches + [Contents(all)])
  }

  /** The buffers of a batch that are written: all, or the first two of too many. */
  function Kept<T>(batch: seq<T>): seq<T> {
    if |batch| > MAX_BUFFERS_TO_WRITE then batch[..2] else batch
  }

  /** What is said of dropped buffers, at the time `now` (as text). */
  function Notice(now: string, dropped: nat): string {
    "Dropped log message at " + now + ", " + Print(dropped, 10) + " larger buffers\n"
  }

  function WrittenOf(batch: seq<string>, now: string): string {
    (if |batch| > MAX_BUFFERS_TO_WRITE then Notice(now, |batch| - 2) else "") + Concat(Kept(batch))
  }

  function Write<I>(s: Log<I>, now: string): Log<I> {
    s.(file := s.file + WrittenOf(Contents(s.toWrite), now), toWrite := Kept(s.toWrite), backend := Wrote,
       times := s.times + [now])
  }

  /** back() is taken of a batch that is not empty. */
  predicate RecycleOk<I>(s: Log<I>) {
    && (s.spare1.None? ==> s.toWrite != [])
    && (s.spare2.None? ==> |s.toWrite| >= if s.spare1.None? then 2 else 1)
  }

  function Recycle<I>(s: Log<I>): Log<I>
    requires RecycleOk(s)
  {
    var n := |s.toWrite|;
    var s1 := if s.spare1.None? then s.(spare1 := Some(s.toWrite[n - 1].(content := "")), toWrite := s.toWrite[..n - 1]) else s;
    var m := |s1.toWrite|;
    var s2 := if s.spare2.None? then s1.(spare2 := Some(s1.toWrite[m - 1].(content := ""))) else s1;
    s2.(toWrite := [], backend := AtHead)
  }

  // ------------------------------------------------------------------ ownership

  function IdOf<I>(b: Option<Buf<I>>): seq<I> { if b.Some? then [b.value.id] else [] }

  function Ids<I>(bs: seq<Buf<I>>): seq<I> { seq(|bs|, i requires 0 <= i < |bs| => bs[i].id) }

  /** Every buffer anybody holds, once for each holder. */
  ghost function Held<I>(s: Log<I>): multiset<I> {
    multiset(IdOf(s.cur)) + multiset(IdOf(s.next)) + multiset(Ids(s.buffers))
    + multiset(IdOf(s.spare1)) + multiset(IdOf(s.spare2)) + multiset(Ids(s.toWrite))
  }

  ghost predicate Distinct<I(!new)>(s: Log<I>) { forall i :: Held(s)[i] <= 1 }

  predicate EmptyOrNone<I>(b: Option<Buf<I>>) { b.Some? ==> b.value.content == "" }

  /** Who holds a buffer when. */
  predicate Ownership<I>(s: Log<I>) {
    && s.cur.Some?
    && EmptyOrNone(s.next) && EmptyOrNone(s.spare1) && EmptyOrNone(s.spare2)
    // a spare given away has left a full buffer behind
    && (s.next.None? ==> s.buffers != [])
    && match s.backend
       case AtHead => s.spare1.Some? && s.spare2.Some? && s.toWrite == []
       case _ => s.spare1.None? && s.toWrite != [] && (s.spare2.None? ==> |s.toWrite| >= 2)
  }

  function AllOf(batches: seq<seq<string>>): string {
    if batches == [] then "" else AllOf(batches[..|batches| - 1]) + Concat(batches[|batches| - 1])
  }

  /** What a batch is to leave in the file: all of it, or of more than 32 buffers a notice,
      which says when and how many are dropped, and the first two. */
  function LeftOf(batch: seq<string>, now: string): string {
    if |batch| > 32 then
      "Dropped log message at " + now + ", " + Print(|batch| - 2, 10) + " larger buffers\n" + (batch[0] + batch[1])
    else Concat(batch)
  }

  lemma LeftIsWritten(batch: seq<string>, now: string)
    ensures WrittenOf(batch, now) == LeftOf(batch, now)
  {
    if |batch| > 32 {
      var two := batch[..2];
      assert two[..1] == [batch[0]] && two[..1][..0] == [];
      assert Concat([batch[0]]) == batch[0] && Concat(two) == batch[0] + batch[1];
    } else {
      assert "" + Concat(batch) == Concat(batch);
    }
  }

  function FileOf(batches: seq<seq<string>>, times: seq<string>): string
    requires |times| == |batches|
  {
    if batches == [] then ""
    else FileOf(batches[..|batches| - 1], times[..|times| - 1]) + LeftOf(batches[|batches| - 1], times[|times| - 1])
  }

  /** What the buffers not yet swapped out hold. */
  function Unswapped<I>(s: Log<I>): string
    requires s.cur.Some?
  {
    Concat(Contents(s.buffers)) + s.cur.value.content
  }

  /** Every accepted line is in a batch, in a full buffer or in the current one, in order;
      and the file holds exactly what the rule keeps of the batches written so far. */
  predicate Conserved<I>(s: Log<I>)
    requires s.cur.Some?
  {
    && s.accepted == AllOf(s.batches) + Unswapped(s)
    && Recorded(s.backend == Swapped, s.batches, s.times, s.toWrite, s.file)
  }

  /** The last batch is still to be written when `pending`; the file holds what is kept of all others. */
  predicate Recorded<I>(pending: bool, batches: seq<seq<string>>, times: seq<string>, toWrite: seq<Buf<I>>, file: string) {
    if pending then
      && |batches| == |times| + 1 && batches[|times|] == Contents(toWrite)
      && file == FileOf(batches[..|times|], times)
    else |batches| == |times| && file == FileOf(batches, times)
  }

  ghost predicate Inv<I(!new)>(s: Log<I>) {
    Ownership(s) && Distinct(s) && Conserved(s)
  }

  // ---------------------------------------------------------------------- steps

  datatype Step<I> = DoAppend(line: string, made: I) | DoSwap | DoWrite(now: string) | DoRecycle

  ghost predicate Enabled<I>(s: Log<I>, step: Step<I>) {
    match step
    case DoAppend(line, made) => made !in Held(s)
    case DoSwap => s.backend == AtHead
    case DoWrite(_) => s.backend == Swapped
    case DoRecycle => s.backend == Wrote
  }

  /** No step dereferences a buffer that is not there. */
  predicate StepOk<I>(s: Log<I>, step: Step<I>) {
    match step
    case DoAppend(_, _) => s.cur.Some?
    case DoSwap => s.cur.Some?
    case DoWrite(_) => true
    case DoRecycle => RecycleOk(s)
  }

  function Next<I>(s: Log<I>, step: Step<I>, size: nat): Log<I>
    requires StepOk(s, step)
  {
    match step
    case DoAppend(line, made) => Append(s, line, made, size)
    case DoSwap => Swap(s)
    case DoWrite(now) => Write(s, now)
    case DoRecycle => Recycle(s)
  }

  lemma ContentsSnoc<I>(bs: seq<Buf<I>>, b: Buf<I>)
    ensures Contents(bs + [b]) == Contents(bs) + [b.content] && Ids(bs + [b]) == Ids(bs) + [b.id]
    ensures Concat(Contents(bs + [b])) == Concat(Contents(bs)) + b.content
  {
    var r := Contents(bs + [b]);
    assert r == Contents(bs) + [b.content];
    assert r[..|r| - 1] == Contents(bs);
  }

  lemma AppendOwnership<I>(s: Log<I>, line: string, made: I, size: nat)
    requires Ownership(s)
    ensures Ownership(Append(s, line, made, size))
  {
  }

  /** What an append adds to the end of the log: the line, if it is shorter than a buffer. */
  lemma AppendTail<I>(s: Log<I>, line: string, made: I, size: nat)
    requires s.cur.Some? && EmptyOrNone(s.next)
    ensures var r := Append(s, line, made, size);
      Unswapped(r) == Unswapped(s) + (if |line| < size then line else "")
  {
    var r := Append(s, line, made, size);
    var (x, y) := (Concat(Contents(s.buffers)), s.cur.value.content);
    if size - |y| > |line| {
      assert x + (y + line) == x + y + line;
    } else {
      ContentsSnoc(s.buffers, s.cur.value);
      assert r.cur.value.content == if |line| < size then line else "";
    }
  }

  lemma AppendRecorded<I>(s: Log<I>, line: string, made: I, size: nat)
    requires s.cur.Some?
    ensures var r := Append(s, line, made, size);
      && r.backend == s.backend && r.batches == s.batches && r.times == s.times && r.toWrite == s.toWrite && r.file == s.file
      && r.cur.Some? && r.accepted == s.accepted + (if |line| < size then line else "")
  {
  }

  lemma Regroup(a: string, u: string, tail: string)
    ensures a + (u + tail) == (a + u) + tail
  {
  }

  lemma AppendConserves<I>(s: Log<I>, line: string, made: I, size: nat)
    requires Ownership(s) && Conserved(s)
    ensures Ownership(Append(s, line, made, size)) && Conserved(Append(s, line, made, size))
  {
    AppendOwnership(s, line, made, size);
    AppendTail(s, line, made, size);
    AppendRecorded(s, line, made, size);
    Regroup(AllOf(s.batches), Unswapped(s), if |line| < size then line else "");
  }

  lemma AppendDistinct<I(!new)>(s: Log<I>, line: string, made: I, size: nat)
    requires s.cur.Some? && Distinct(s) && made !in Held(s)
    ensures Distinct(Append(s, line, made, size))
  {
    var r := Append(s, line, made, size);
    ContentsSnoc(s.buffers, s.cur.value);
    assert multiset(Ids(s.buffers) + [s.cur.value.id]) == multiset(Ids(s.buffers)) + multiset{s.cur.value.id};
    forall i
      ensures Held(r)[i] <= 1
    {
      assert Held(s)[i] <= 1;
    }
  }

  lemma SwapDistinct<I(!new)>(s: Log<I>)
    requires s.cur.Some? && Distinct(s) && s.backend == AtHead && s.toWrite == []
    ensures Distinct(Swap(s))
  {
    var r := Swap(s);
    ContentsSnoc(s.buffers, s.cur.value);
    assert multiset(Ids(s.buffers) + [s.cur.value.id]) == multiset(Ids(s.buffers)) + multiset{s.cur.value.id};
    forall i
      ensures Held(r)[i] <= 1
    {
      assert Held(s)[i] <= 1;
    }
  }

  lemma AllOfSnoc(batches: seq<seq<string>>, batch: seq<string>)
    ensures AllOf(batches + [batch]) == AllOf(batches) + Concat(batch)
  {
    var r := batches + [batch];
    assert r[..|r| - 1] == batches && r[|r| - 1] == batch;
  }

  lemma SwapOwnership<I>(s: Log<I>)
    requires Ownership(s) && s.backend == AtHead
    ensures Ownership(Swap(s)) && Unswapped(Swap(s)) == ""
  {
    assert Contents(Swap(s).buffers) == [];
  }

  lemma SwapConserves<I>(s: Log<I>)
    requires Ownership(s) && Conserved(s) && s.backend == AtHead
    ensures Swap(s).cur.Some? && Conserved(Swap(s))
  {
    SwapOwnership(s);
    var r := Swap(s);
    var batch := Contents(r.toWrite);
    ContentsSnoc(s.buffers, s.cur.value);
    AllOfSnoc(s.batches, batch);
    assert r.batches[..|r.batches| - 1] == s.batches;
    Appended(AllOf(s.batches), Unswapped(s), Unswapped(r));
  }

  lemma Appended(a: string, u: string, none: string)
    requires none == ""
    ensures a + u == (a + u) + none
  {
  }

  lemma SwapKeeps<I(!new)>(s: Log<I>)
    requires Inv(s) && s.backend == AtHead
    ensures Inv(Swap(s))
  {
    SwapDistinct(s);
    SwapOwnership(s);
    SwapConserves(s);
  }

  lemma WriteDistinct<I(!new)>(s: Log<I>, now: string)
    requires Distinct(s)
    ensures Distinct(Write(s, now))
  {
    var r := Write(s, now);
    if |s.toWrite| > MAX_BUFFERS_TO_WRITE {
      assert Ids(s.toWrite) == Ids(r.toWrite) + Ids(s.toWrite)[2..];
      assert multiset(Ids(s.toWrite)) == multiset(Ids(r.toWrite)) + multiset(Ids(s.toWrite)[2..]);
    }
    forall i
      ensures Held(r)[i] <= 1
    {
      assert Held(s)[i] <= 1;
    }
  }

  lemma FileOfSnoc(batches: seq<seq<string>>, times: seq<string>, now: string)
    requires |batches| == |times| + 1
    ensures FileOf(batches, times + [now]) == FileOf(batches[..|times|], times) + WrittenOf(batches[|times|], now)
  {
    LeftIsWritten(batches[|times|], now);
    var all := times + [now];
    assert all[..|all| - 1] == times && all[|all| - 1] == now;
  }

  lemma WriteKeeps<I(!new)>(s: Log<I>, now: string)
    requires Inv(s) && s.backend == Swapped
    ensures Inv(Write(s, now))
  {
    WriteDistinct(s, now);
    FileOfSnoc(s.batches, s.times, now);
  }

  lemma IdsLast<I>(bs: seq<Buf<I>>)
    requires bs != []
    ensures multiset(Ids(bs)) == multiset(Ids(bs[..|bs| - 1])) + multiset{bs[|bs| - 1].id}
  {
    assert Ids(bs) == Ids(bs[..|bs| - 1]) + [bs[|bs| - 1].id];
  }

  lemma RecycleDistinct<I(!new)>(s: Log<I>)
    requires Distinct(s) && RecycleOk(s) && s.spare1.None? && s.toWrite != []
    ensures Distinct(Recycle(s))
  {
    var r := Recycle(s);
    var n := |s.toWrite|;
    IdsLast(s.toWrite);
    if s.spare2.None? {
      IdsLast(s.toWrite[..n - 1]);
    }
    forall i
      ensures Held(r)[i] <= 1
    {
      assert Held(s)[i] <= 1;
    }
  }

  lemma RecycleKeeps<I(!new)>(s: Log<I>)
    requires Inv(s) && s.backend == Wrote
    ensures RecycleOk(s) && Inv(Recycle(s))
  {
    RecycleDistinct(s);
  }

  lemma StepKeeps<I(!new)>(s: Log<I>, step: Step<I>, size: nat)
    requires Inv(s) && Enabled(s, step)
    ensures StepOk(s, step) && Inv(Next(s, step, size))
  {
    match step
    case DoAppend(line, made) =>
      AppendOwnership(s, line, made, size);
      AppendConserves(s, line, made, size);
      AppendDistinct(s, line, made, size);
    case DoSwap => SwapKeeps(s);
    case DoWrite(now) => WriteKeeps(s, now);
    case DoRecycle => RecycleKeeps(s);
  }

  // ------------------------------------------------ buffers neither lost nor invented

  /** An append that fits goes behind what the current buffer holds; else that buffer is full and
      the spare one, or a new one when there is none, takes its place. */
  lemma AppendExactly<I>(s: Log<I>, line: string, made: I, size: nat)
    requires s.cur.Some? && EmptyOrNone(s.next)
    ensures var r := Append(s, line, made, size); var b := s.cur.value;
      if |b.content| + |line| < size then
        r.buffers == s.buffers && r.next == s.next && r.cur == Some(Buf(b.id, b.content + line))
      else
        && r.buffers == s.buffers + [b] && r.next == None
        && r.cur == Some(Buf(if s.next.Some? then s.next.value.id else made, if |line| < size then line else ""))
  {
    assert "" + line == line;
  }

  lemma AppendHolds<I(!new)>(s: Log<I>, line: string, made: I, size: nat)
    requires s.cur.Some? && EmptyOrNone(s.next)
    ensures Held(Append(s, line, made, size)) ==
      Held(s) + if |s.cur.value.content| + |line| >= size && s.next.None? then multiset{made} else multiset{}
  {
    var r := Append(s, line, made, size);
    AppendExactly(s, line, made, size);
    ContentsSnoc(s.buffers, s.cur.value);
    assert multiset(Ids(s.buffers) + [s.cur.value.id]) == multiset(Ids(s.buffers)) + multiset{s.cur.value.id};
  }

  lemma SwapHolds<I(!new)>(s: Log<I>)
    requires s.cur.Some? && s.toWrite == []
    ensures Held(Swap(s)) == Held(s)
  {
    ContentsSnoc(s.buffers, s.cur.value);
    assert multiset(Ids(s.buffers) + [s.cur.value.id]) == multiset(Ids(s.buffers)) + multiset{s.cur.value.id};
  }

  /** The buffers held before are held after: an append adds the one it makes, if it makes one;
      taking a batch adds none and loses none; writing one gives up just those dropped. */
  lemma BuffersKept<I(!new)>(s: Log<I>, step: Step<I>, size: nat)
    requires Inv(s) && Enabled(s, step) && StepOk(s, step)
    ensures var r := Next(s, step, size);
      match step
      case DoAppend(line, made) =>
        Held(r) == Held(s) + if |s.cur.value.content| + |line| >= size && s.next.None? then multiset{made} else multiset{}
      case DoSwap => Held(r) == Held(s)
      case DoWrite(_) => Held(r) == Held(s) - multiset(Ids(if |s.toWrite| > 32 then s.toWrite[2..] else []))
      case DoRecycle => Held(r) <= Held(s)
  {
    match step
    case DoAppend(line, made) => AppendHolds(s, line, made, size);
    case DoSwap => SwapHolds(s);
    case DoWrite(now) => WriteGivesUp(s, now);
    case DoRecycle => RecycleHolds(s);
  }

  lemma WriteGivesUp<I(!new)>(s: Log<I>, now: string)
    ensures Held(Write(s, now)) == Held(s) - multiset(Ids(if |s.toWrite| > 32 then s.toWrite[2..] else []))
  {
    if |s.toWrite| > 32 {
      assert Ids(s.toWrite) == Ids(s.toWrite[..2]) + Ids(s.toWrite[2..]);
    }
  }

  lemma RecycleHolds<I(!new)>(s: Log<I>)
    requires RecycleOk(s) && s.spare1.None? && s.toWrite != []
    ensures Held(Recycle(s)) <= Held(s)
  {
    IdsLast(s.toWrite);
    if s.spare2.None? {
      IdsLast(s.toWrite[..|s.toWrite| - 1]);
    }
  }

  predicate Short<I>(b: Option<Buf<I>>, size: nat) { b.Some? ==> |b.value.content| < size }

  /** Every buffer holds less than its size: there is always room for a terminator. */
  ghost predicate AllShort<I>(s: Log<I>, size: nat) {
    && Short(s.cur, size) && Short(s.next, size) && Short(s.spare1, size) && Short(s.spare2, size)
    && (forall b <- s.buffers :: |b.content| < size) && (forall b <- s.toWrite :: |b.content| < size)
  }

  lemma StepShort<I(!new)>(s: Log<I>, step: Step<I>, size: nat)
    requires Inv(s) && StepOk(s, step) && size > 0 && AllShort(s, size)
    ensures AllShort(Next(s, step, size), size)
  {
  }

  // ----------------------------------------------------------------------- runs

  /** The four buffers the constructor and the backend start with. */
  function Start<I>(a: I, b: I, c: I, d: I): Log<I> {
    Log(Some(Buf(a, "")), Some(Buf(b, "")), [], Some(Buf(c, "")), Some(Buf(d, "")), [], AtHead, "", [], [], "")
  }

  ghost predicate IsRun<I(!new)>(states: seq<Log<I>>, steps: seq<Step<I>>, size: nat) {
    && |states| == |steps| + 1
    && (exists a, b, c, d :: a != b && a != c && a != d && b != c && b != d && c != d && states[0] == Start(a, b, c, d))
    && forall i :: 0 <= i < |steps| ==>
        Enabled(states[i], steps[i]) && (StepOk(states[i], steps[i]) ==> states[i + 1] == Next(states[i], steps[i], size))
  }

  lemma StartInv<I(!new)>(a: I, b: I, c: I, d: I)
    requires a != b && a != c && a != d && b != c && b != d && c != d
    ensures Inv(Start(a, b, c, d))
  {
    var s := Start(a, b, c, d);
    assert Contents(s.buffers) == [];
    assert Ids(s.toWrite) == [] && Ids(s.buffers) == [];
    forall i
      ensures Held(s)[i] <= 1
    {
    }
  }

  lemma {:induction false} RunInv<I(!new)>(states: seq<Log<I>>, steps: seq<Step<I>>, size: nat, i: nat)
    requires IsRun(states, steps, size) && i <= |steps|
    ensures Inv(states[i])
    ensures i < |steps| ==> StepOk(states[i], steps[i])
  {
    if i == 0 {
      var a, b, c, d :| a != b && a != c && a != d && b != c && b != d && c != d && states[0] == Start(a, b, c, d);
      StartInv(a, b, c, d);
    } else {
      RunInv(states, steps, size, i - 1);
      StepKeeps(states[i - 1], steps[i - 1], size);
    }
    if i < |steps| {
      StepKeeps(states[i], steps[i], size);
    }
  }

  predicate SparesReady<I(==)>(s: Log<I>) {
    && s.spare1.Some? && s.spare2.Some? && s.toWrite == []
    && s.spare1.value.content == "" && s.spare2.value.content == "" && s.spare1.value.id != s.spare2.value.id
  }

  /** Buffer ownership over every interleaving: the current buffer is always there, no two
      holders share a buffer, at the loop head both spares are there and empty, and no step
      uses a buffer that is missing. */
  lemma OwnershipHolds<I(!new)>(states: seq<Log<I>>, steps: seq<Step<I>>, size: nat, i: nat)
    requires IsRun(states, steps, size) && i <= |steps|
    ensures var s := states[i];
      && s.cur.Some? && Distinct(s)
      && (s.backend == AtHead ==> SparesReady(s))
    ensures i < |steps| ==> StepOk(states[i], steps[i])
  {
    RunInv(states, steps, size, i);
    var s := states[i];
    if s.backend == AtHead {
      assert Held(s)[s.spare1.value.id] <= 1;
    }
  }

  predicate WithinLimit(batches: seq<seq<string>>) {
    batches == [] || (|batches[|batches| - 1]| <= MAX_BUFFERS_TO_WRITE && WithinLimit(batches[..|batches| - 1]))
  }

  lemma {:induction false} NoDropKeepsAll(batches: seq<seq<string>>, times: seq<string>)
    requires WithinLimit(batches) && |times| == |batches|
    ensures FileOf(batches, times) == AllOf(batches)
    decreases |batches|
  {
    if batches != [] {
      NoDropKeepsAll(batches[..|batches| - 1], times[..|times| - 1]);
      assert LeftOf(batches[|batches| - 1], times[|times| - 1]) == Concat(batches[|batches| - 1]);
    }
  }

  /** Conservation and order: as long as no batch exceeds the limit, what is in the file,
      in the batch being written, in the full buffers and in the current one is exactly all
      accepted lines, in lock order. */
  lemma LogConserved<I(!new)>(states: seq<Log<I>>, steps: seq<Step<I>>, size: nat, i: nat)
    requires IsRun(states, steps, size) && i <= |steps|
    requires WithinLimit(states[i].batches)
    ensures var s := states[i];
      && s.cur.Some?
      && s.accepted == s.file + (if s.backend == Swapped then Concat(Contents(s.toWrite)) else "") + Unswapped(s)
  {
    RunInv(states, steps, size, i);
    Unbroken(states[i]);
  }

  lemma Unbroken<I>(s: Log<I>)
    requires s.cur.Some? && Conserved(s) && WithinLimit(s.batches)
    ensures s.accepted == s.file + (if s.backend == Swapped then Concat(Contents(s.toWrite)) else "") + Unswapped(s)
  {
    if s.backend == Swapped {
      NoDropKeepsAll(s.batches[..|s.times|], s.times);
    } else {
      NoDropKeepsAll(s.batches, s.times);
      assert s.file + "" == s.file;
    }
  }

  /** The backend can always make its turn: it takes a batch, leaves in the file what it is to
      leave of it, and has its spare buffers back. */
  lemma BackendTurns<I(!new)>(s: Log<I>, now: string, size: nat)
    requires Inv(s) && s.backend == AtHead
    ensures Enabled(s, DoSwap) && StepOk(s, DoSwap)
    ensures var s1 := Next(s, DoSwap, size);
      && Enabled(s1, DoWrite(now)) && StepOk(s1, DoWrite(now))
      && var s2 := Next(s1, DoWrite(now), size);
      && Enabled(s2, DoRecycle) && StepOk(s2, DoRecycle)
      && var s3 := Next(s2, DoRecycle, size);
      && s3.backend == AtHead && SparesReady(s3) && s3.accepted == s.accepted && Unswapped(s3) == ""
      && s3.file == s.file + LeftOf(Contents(s.buffers + [s.cur.value]), now)
  {
    var s1 := Swap(s);
    SwapKeeps(s);
    SwapOwnership(s);
    WriteKeeps(s1, now);
    LeftIsWritten(Contents(s1.toWrite), now);
    var s2 := Write(s1, now);
    RecycleKeeps(s2);
    assert Held(Recycle(s2))[Recycle(s2).spare1.value.id] <= 1;
  }

  lemma {:induction false} BuffersShort<I(!new)>(states: seq<Log<I>>, steps: seq<Step<I>>, size: nat, i: nat)
    requires IsRun(states, steps, size) && i <= |steps| && size > 0
    ensures AllShort(states[i], size)
  {
    if i > 0 {
      RunInv(states, steps, size, i - 1);
      BuffersShort(states, steps, size, i - 1);
      StepShort(states[i - 1], steps[i - 1], size);
    }
  }

  /** With drops, each batch over the limit leaves exactly a notice, with the time and the
      number of buffers dropped, and its first two buffers. */
  lemma DroppedExactly<I(!new)>(states: seq<Log<I>>, steps: seq<Step<I>>, size: nat, i: nat)
    requires IsRun(states, steps, size) && i <= |steps|
    ensures var s := states[i];
      && s.cur.Some? && |s.batches| == |s.times| + (if s.backend == Swapped then 1 else 0)
      && s.file == FileOf(s.batches[..|s.times|], s.times)
      && s.accepted == AllOf(s.batches) + Unswapped(s)
  {
    RunInv(states, steps, size, i);
    var s := states[i];
    if s.backend != Swapped {
      assert s.batches[..|s.times|] == s.batches;
    }
  }

  function Lines<I>(steps: seq<Step<I>>): string {
    if steps == [] then ""
    else
      var n := |steps| - 1;
      Lines(steps[..n]) + (if steps[n].DoAppend? then steps[n].line else "")
  }

  /** Every line appended is shorter than a buffer, or empty. */
  predicate AllFit<I>(steps: seq<Step<I>>, size: nat) {
    steps == [] ||
    var n := |steps| - 1;
    AllFit(steps[..n], size) && (steps[n].DoAppend? ==> |steps[n].line| < size || steps[n].line == "")
  }

  lemma StepAccepts<I>(s: Log<I>, step: Step<I>, size: nat)
    requires StepOk(s, step)
    ensures Next(s, step, size).accepted ==
      s.accepted + (if step.DoAppend? && |step.line| < size then step.line else "")
  {
  }

  /** The accepted lines are all lines appended exactly when each fits a buffer. */
  lemma {:induction false} AcceptedExactly<I(!new)>(states: seq<Log<I>>, steps: seq<Step<I>>, size: nat)
    requires IsRun(states, steps, size)
    ensures |states[|steps|].accepted| <= |Lines(steps)|
    ensures states[|steps|].accepted == Lines(steps) <==> AllFit(steps, size)
    decreases |steps|
  {
    if steps != [] {
      var n := |steps| - 1;
      RunPrefix(states, steps, size);
      AcceptedExactly(states[..n + 1], steps[..n], size);
      RunInv(states, steps, size, n);
      StepAccepts(states[n], steps[n], size);
      var (a, l) := (states[n].accepted, Lines(steps[..n]));
      var line := if steps[n].DoAppend? then steps[n].line else "";
      assert states[..n + 1][|steps[..n]|] == states[n];
      assert Lines(steps) == l + line;
      if line != "" && |line| >= size {
        assert |states[n + 1].accepted| < |Lines(steps)|;
      } else {
        SameTail(a, l, line);
        assert states[n + 1].accepted == a + line;
      }
    }
  }

  lemma SameTail(a: string, l: string, line: string)
    ensures a + line == l + line <==> a == l
  {
    if a + line == l + line {
      assert a == (a + line)[..|a|] == (l + line)[..|l|] == l;
    }
  }

  lemma RunPrefix<I(!new)>(states: seq<Log<I>>, steps: seq<Step<I>>, size: nat)
    requires IsRun(states, steps, size) && steps != []
    ensures IsRun(states[..|steps|], steps[..|steps| - 1], size)
  {
  }
}
