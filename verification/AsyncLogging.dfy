/**
 AsyncLogging in place: the front end's append and the stretches of the backend
 loop between two points where the mutex is taken or released.
 */
module AsyncLoggings {
  import opened LoggingSpec
  import opened Wrappers
  import LogStream

  class AsyncLogging {
    var curBuffer: Option<Buf<nat>>
    var nextBuffer: Option<Buf<nat>>
    var buffers: seq<Buf<nat>>
    var newBuffer1: Option<Buf<nat>>
    var newBuffer2: Option<Buf<nat>>
    var buffersToWrite: seq<Buf<nat>>
    var backend: Backend
    var logFile: string
    var made: nat  // buffers made so far; the next one gets this identity
    ghost var batches: seq<seq<string>>
    ghost var times: seq<string>
    ghost var accepted: string

    constructor ()
      ensures Value() == Start(0, 1, 2, 3) && made == 4
    {
      curBuffer, nextBuffer, buffers := Some(Buf(0, "")), Some(Buf(1, "")), [];
      newBuffer1, newBuffer2, buffersToWrite := Some(Buf(2, "")), Some(Buf(3, "")), [];
      backend, logFile, made, batches, times, accepted := AtHead, "", 4, [], [], "";
    }

    ghost function Value(): Log<nat>
      reads this
    {
      Log(curBuffer, nextBuffer, buffers, newBuffer1, newBuffer2, buffersToWrite, backend, logFile, batches, times, accepted)
    }

    /** Called by any thread, under the mutex. */
    method Append(line: string)
      requires curBuffer.Some?
      modifies this`curBuffer, this`nextBuffer, this`buffers, this`made, this`accepted
      ensures Value() == LoggingSpec.Append(old(Value()), line, old(made), 4194304)
      ensures made == old(made) +
        if |old(curBuffer).value.content| + |line| >= 4194304 && old(nextBuffer).None? then 1 else 0
    {
      accepted := if |line| < LogStream.LARGE_BUFFER then accepted + line else accepted;
      var avail := LogStream.LARGE_BUFFER - |curBuffer.value.content|;
      if avail > |line| {
        curBuffer := Some(Fill(curBuffer.value, line, LogStream.LARGE_BUFFER));
      } else {
        buffers := buffers + [curBuffer.value];
        if nextBuffer.Some? {
          curBuffer := nextBuffer;
          nextBuffer := None;
        } else {
          curBuffer := Some(Buf(made, ""));
          made := made + 1;
        }
        curBuffer := Some(Fill(curBuffer.value, line, LogStream.LARGE_BUFFER));
      }
    }

    /** The backend's lock region, once it has the mutex (again). */
    method SwapBuffers()
      requires curBuffer.Some?
      modifies this
      ensures Value() == LoggingSpec.Swap(old(Value())) && made == old(made)
    {
      buffers := buffers + [curBuffer.value];
      curBuffer := newBuffer1;
      newBuffer1 := None;
      if nextBuffer.None? {
        nextBuffer := newBuffer2;
        newBuffer2 := None;
      }
      batches := batches + [Contents(buffers)];
      buffersToWrite, buffers := buffers, [];
      backend := Swapped;
    }

    /** Drops all but two buffers of an oversized batch and says so, then writes what is left. */
    method WriteBatch(now: string)
      modifies this`logFile, this`buffersToWrite, this`backend, this`times
      ensures Value() == LoggingSpec.Write(old(Value()), now)
    {
      WriteSplits(Value(), now);
      DropExcess(now);
      WriteAll();
      times := times + [now];
      backend := Wrote;
    }

    method WriteAll()
      modifies this`logFile
      ensures logFile == old(logFile) + Concat(Contents(buffersToWrite))
    {
      ghost var all := Contents(buffersToWrite);
      var i := 0;
      while i < |buffersToWrite|
        invariant 0 <= i <= |buffersToWrite|
        invariant logFile == old(logFile) + Concat(all[..i])
      {
        assert all[..i + 1][..i] == all[..i] && all[..i + 1][i] == buffersToWrite[i].content;
        logFile := logFile + buffersToWrite[i].content;
        i := i + 1;
      }
      assert all[..i] == all;
    }

    method DropExcess(now: string)
      modifies this`logFile, this`buffersToWrite
      ensures buffersToWrite == Kept(old(buffersToWrite))
      ensures logFile == old(logFile) + Warning(|old(buffersToWrite)|, now)
    {
      if |buffersToWrite| > MAX_BUFFERS_TO_WRITE {
        logFile := logFile + Notice(now, |buffersToWrite| - 2);
        buffersToWrite := buffersToWrite[..2];
      }
    }

    /** Two buffers of the batch become the spare ones again. */
    method Recycle()
      requires RecycleOk(Value())
      modifies this`newBuffer1, this`newBuffer2, this`buffersToWrite, this`backend
      ensures Value() == LoggingSpec.Recycle(old(Value()))
    {
      if newBuffer1.None? {
        newBuffer1 := Some(buffersToWrite[|buffersToWrite| - 1].(content := ""));
        buffersToWrite := buffersToWrite[..|buffersToWrite| - 1];
      }
      if newBuffer2.None? {
        newBuffer2 := Some(buffersToWrite[|buffersToWrite| - 1].(content := ""));
      }
      buffersToWrite := [];
      backend := AtHead;
    }

    /** One undisturbed turn of the backend: everything accepted reaches the file, and the
        spare buffers are back. */
    method Turn(now: string)
      requires backend == AtHead && Inv(Value()) && |buffers| < MAX_BUFFERS_TO_WRITE
      modifies this
      ensures backend == AtHead && Inv(Value()) && SparesReady(Value())
      ensures logFile == old(logFile) + Concat(Contents(old(buffers))) + old(curBuffer).value.content
      ensures buffers == [] && curBuffer.value.content == "" && accepted == old(accepted)
    {
      ghost var s := Value();
      SwapKeeps(s);
      SwapBuffers();
      TurnWrites(s, now);
      WriteKeeps(Value(), now);
      WriteBatch(now);
      RecycleKeeps(Value());
      Recycle();
      assert Held(Value())[newBuffer1.value.id] <= 1;
    }
  }

  function Warning(dropFrom: nat, now: string): string {
    if dropFrom > MAX_BUFFERS_TO_WRITE then Notice(now, dropFrom - 2) else ""
  }

  /** The notice, if any, goes to the file first, then what is kept of the batch. */
  lemma WriteSplits<I>(s: Log<I>, now: string)
    ensures Write(s, now) ==
      s.(file := (s.file + Warning(|s.toWrite|, now)) + Concat(Contents(Kept(s.toWrite))), toWrite := Kept(s.toWrite),
         backend := Wrote, times := s.times + [now])
  {
    assert Contents(Kept(s.toWrite)) == Kept(Contents(s.toWrite));
  }

  /** What a batch within the limit adds to the file. */
  lemma TurnWrites<I>(s: Log<I>, now: string)
    requires s.cur.Some? && |s.buffers| < MAX_BUFFERS_TO_WRITE
    ensures Write(Swap(s), now).file == s.file + Concat(Contents(s.buffers)) + s.cur.value.content
  {
    ContentsSnoc(s.buffers, s.cur.value);
    var all := Contents(s.buffers + [s.cur.value]);
    assert WrittenOf(all, now) == "" + Concat(all) == Concat(all);
    assert s.file + (Concat(Contents(s.buffers)) + s.cur.value.content)
        == s.file + Concat(Contents(s.buffers)) + s.cur.value.content;
  }
}
