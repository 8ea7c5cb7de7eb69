# A verified model of the multi-reactor HTTP server

This project models the protocols inside the server and proves what they promise, over every input, every
run and every interleaving. It covers nine parts; each part has a specification on values (functions, state
machines and the lemmas about them) and, where the server works by updating objects in place, classes whose
methods are proved to do what the specification says. (`Wrappers.dfy` holds the option type all of them use.)

| part | files |
|---|---|
| channels and the epoll poller | `Poller.dfy` |
| life cycle of a connection across the accept loop and its I/O loop | `LifeCycle.dfy`, `LifeCycleSafety.dfy`, `LifeCycleRuns.dfy`, `LifeCycleProgress.dfy`, `LifeCycleEffects.dfy`, `TcpServer.dfy` |
| the byte buffer | `Buffer.dfy` |
| output path, half-close and flow control of a connection | `ConnectionSpec.dfy`, `TcpConnection.dfy`; its agreement with the life cycle: `ConnectionProjection.dfy` |
| task queue and wake-up of an event loop | `EventLoop.dfy` |
| timer queue and kernel timer | `TimerSpec.dfy`, `TimerSafety.dfy`, `TimerRuns.dfy`, `TimerArming.dfy`, `TimerQueue.dfy` |
| pipelined HTTP request parser | `HttpSpec.dfy`, `HttpUnits.dfy`, `HttpRoundTrip.dfy`, `HttpDivergence.dfy`, `HttpLimits.dfy`, `HttpCuts.dfy`, `HttpGrammar.dfy`, `HttpParser.dfy` |
| double-buffered asynchronous log | `LoggingSpec.dfy`, `AsyncLogging.dfy` |
| number formatting into a bounded buffer, and the timing wheel for idle connections | `Digits.dfy`, `LogStream.dfy`, `TimingWheel.dfy` |

Main results: `LifeCycleRuns.LifeCycleSafe` and `RunSafeExactly` with `LifeCycleProgress.DownGetsDestroyed` and `LifeCycleEffects.EventHandled` (the two-loop life
cycle), `ConnectionSpec.OutputStream`, `IntendedStream` and `RepliesPrecedeHalfClose` (output stream and graceful half-close), `FlowNeverSticksExactly` (flow control),
`EventLoopSpec.NoLostWakeup`, `FifoExactlyOnce` and `StopsExactly` (task queue), `TimerRuns.RunRefinesMap` and
`HandleReadRefines` (timers), `TimerArming.HandleReadArmedExactly` (kernel timer),
`HttpRoundTrip.PipelinedRoundTrip`, `HttpUnits.ChunkingHarmless`, `HttpDivergence.DivergesExactly` and `HttpGrammar.RequestLineExactly` (parser), `LoggingSpec.LogConserved`
and `OwnershipHolds` (log), `WheelSpec.SilentEntryExactly` (timing wheel), `PollerSpec.RunCoherent` (poller).

## Conventions

*Assertions.* The Makefile compiles the assertions out (`WebServer/Makefile:34-35`), so past a false one the
program just goes on in a state its author excluded. The model computes whether every assertion on the path
holds (`ok`, `StepOk`, `Failed`) and promises results only while they do; the contracts say exactly when that is.

*The kernel.* What a system call answers (bytes a send took, bytes read, ready descriptors, the time) is an
argument. The interest set of epoll, the eventfd counter and the time the kernel timer is armed for are state.

*History variables.* Where a property speaks about the past, the state carries it: bytes accepted and given to
the socket, functors queued and run, lines accepted and written, events a connection went through. They are
named as such where they are declared.

*The code as written.* Where the code does not do what its comments, assertions or names say, the model does
what the code does, and a lemma says exactly when the intended property holds:

- `WebServer/Buffer.cpp:337-338` reduces the write index by a prefix length that is already zero, so in-place
  compaction always fails its assertion, and leaves other bytes readable where assertions are compiled out
  (`Buffer.MakeSpace`). Every append says that it succeeds exactly when no compaction is needed
  (`Buffers.GrowsInPlace`); runs of a connection carry the size and the read index of its output buffer, so
  that `SendFailsExactly` says which sends compact and `CompactionFails` shows a run that does.
  `CompactionIntended` and `Buffer.MakeSpaceIntended` show what moving both indices would give, `IntendedStream` that the
  output stream is then right in every run. The input buffer never compacts in HttpServer:
  `WebServer/http/HttpServer.cpp:56` empties it at every message.
- `WebServer/Buffer.cpp:135`: `readInt64` decodes two bytes; right exactly for 0 and -1 (`TopTwoBytes`). The
  peeks at `Buffer.cpp:172`, `:180` and `:188` demand one byte more than they read (`PeekInt`).
- `WebServer/TcpConnection.cpp:99-132`: `nwrote` is unsigned, so the error branch is dead and a failed direct
  send breaks the assertion at line 134; `Send` succeeds exactly without that.
- `WebServer/TimerQueue.cpp:171` arms the kernel timer again only when the earliest deadline changed;
  `HandleReadArmedExactly`, `QuietExpiryArmedExactly` and the concrete `SurvivorUnarmed` say when that is enough,
  `IntendedRearm` that dropping the condition would always be.
- `WebServer/base/LogStream.cpp:38` stops as soon as the value is not positive; `ConvertCorrectExactly`.
- `WebServer/http/HttpParser.cpp:424` reads a length through `atoi`; `LengthReadBackExactly`.
- `WebServer/http/HttpParser.cpp:107` forgets the start of a half-read line, and
  `WebServer/http/HttpServer.cpp:58-65` with `WebServer/http/HttpParser.h:52-57` replaces pending input;
  `CutRecoveredExactly`, `CutLineForgotten`, `CutBodyRecoveredExactly` and the lemmas beside them.
- `WebServer/http/HttpParser.cpp:178` and `:188` do not step over a bare line end; `DivergesExactly`.
- `WebServer/http/HttpServer.cpp:66-69` closes a fresh connection whose first message ends before its keep-alive
  line; `FirstMessageKeptExactly`, `FreshChunksExactly`.
- `WebServer/http/HttpServer.cpp:90-91` gives the handlers and the timer separate copies of the wheel;
  `CopiesNeverExpire`, `CopiesAgreeExactly`.
- `WebServer/Channel.cpp:44-64` may close and then read on one event; `HandleFailsExactly`, `DisorderlyHandle`. A
  `startRead` after the close registers the channel again; `DownWatchedExactly`, `DisorderlyStartRead`, `LateStartReadFails`.

One place follows the intent, because the code has no defined meaning there: `WebServer/TimerQueue.cpp:110-111`
deletes through an iterator it has just erased; the model deletes the timer that was found.

## Model

| member | source | states |
|---|---|---|
| PollerSpec.InterestUpdates | WebServer/Channel.h:68-106 | each enable or disable call changes exactly the interest it names and leaves the other as it was |
| PollerSpec.MaskBits | WebServer/Channel.cpp:9-11 | read interest is EPOLLIN and EPOLLPRI, write interest EPOLLOUT |
| PollerSpec.UpdateKeepsCoherent | WebServer/EpollPoller.cpp:69-107 | from a coherent state the assertions and the epoll_ctl call succeed exactly when the channel is known or its descriptor is free, and the poller's table, the channel indices and the kernel set still agree |
| PollerSpec.RemoveKeepsCoherent | WebServer/EpollPoller.cpp:109-128 | removal succeeds exactly for a registered channel; the state stays coherent and the descriptor is gone from the table |
| PollerSpec.RunCoherent | WebServer/EpollPoller.cpp:69-152 | with distinct descriptors, all assertions and epoll_ctl calls of any run of changes and removals succeed if and only if only registered channels are removed, and then the final state is coherent |
| EpollPoller.Channel.EnableReading | WebServer/Channel.h:68-72 | sets the read bits and hands the new mask to the poller |
| EpollPoller.Channel.DisableReading | WebServer/Channel.h:74-78 | clears the read bits and hands the new mask to the poller |
| EpollPoller.Channel.EnableWriting | WebServer/Channel.h:80-84 | sets the write bit and hands the new mask to the poller |
| EpollPoller.Channel.DisableWriting | WebServer/Channel.h:86-90 | clears the write bit and hands the new mask to the poller |
| EpollPoller.Channel.DisableAll | WebServer/Channel.h:92-96 | clears the mask and hands it to the poller |
| EpollPoller.EpollPoller.UpdateChannel | WebServer/EpollPoller.cpp:69-107 | table, kernel set and the channel's index become what the specification makes of the old ones; `ok` is whether every assertion and epoll_ctl call succeeds |
| EpollPoller.EpollPoller.RemoveChannel | WebServer/EpollPoller.cpp:109-128 | the same for removal |
| LifeCycleSafety.EstablishEffect | WebServer/TcpConnection.cpp:52-61 | a connecting connection becomes connected, is registered with its poller and records its establishment; nothing of any other connection changes |
| LifeCycleSafety.DestroyEffect | WebServer/TcpConnection.cpp:63-73 | a disconnected connection leaves its poller and records its destruction |
| LifeCycleSafety.RemoveEffect | WebServer/TcpServer.cpp:74-82 | the name is erased and exactly one connectDestroyed is queued in the connection's own loop |
| LifeCycleSafety.CloseEffect | WebServer/TcpConnection.cpp:212-222 | the connection goes down once, leaves the kernel's interest set, and is handed to the accept loop's queue or, when that is its own loop, straight to its destruction |
| LifeCycleSafety.SendEffect | WebServer/TcpConnection.cpp:96-155 | a send in which no assertion fails (`Refused` stands for one that does: line 134, or the output buffer compacting), whatever the socket takes of it, keeps an open connection open and registered and queues callbacks only for it |
| LifeCycleSafety.MessageEffect | WebServer/http/HttpServer.cpp:53-79 | any number of such sends, followed or not by a shutdown, keep the connection open and record one handler call |
| LifeCycleSafety.WriteEffect | WebServer/TcpConnection.cpp:180-210 | handling writability keeps an open connection open and registered, whether or not the buffer drains |
| LifeCycleSafety.StartReadEffect | WebServer/TcpConnection.cpp:281-289 | resuming reading keeps an open connection open, with its channel added if it was |
| LifeCycleSafety.StopReadEffect | WebServer/TcpConnection.cpp:296-304 | stopping reading keeps an open connection open and known to its poller |
| LifeCycleSafety.ShutdownEffect | WebServer/TcpConnection.cpp:232-239 | shutdown keeps an open connection open and registered |
| LifeCycleSafety.OthersKeep | WebServer/TcpServer.cpp:50-82 | an operation on one connection changes nothing any other connection can observe |
| LifeCycleRuns.HandleKeeps | WebServer/Channel.cpp:40-71 | handling any event of a ready channel keeps the life-cycle invariant, unless the event closes and then reads, or a send of the message callback fails an assertion |
| LifeCycleRuns.AcceptKeeps | WebServer/TcpServer.cpp:50-67 | creating a connection keeps the life-cycle invariant, given a descriptor no owned connection has open |
| LifeCycleRuns.RunKeeps | WebServer/EventLoop.cpp:218-232 | running any queued functor keeps the life-cycle invariant |
| LifeCycleRuns.PollKeeps | WebServer/EpollPoller.cpp:53-67 | every descriptor the kernel reports is in the table, and its channel belongs to an open connection of this loop |
| LifeCycleRuns.StepKeeps | WebServer/EventLoop.cpp:51-80 | every step of every loop keeps the life-cycle invariant |
| LifeCycleRuns.NotGoneOwned | WebServer/TcpServer.cpp:61-81 | a connection that is not yet gone is owned by the registry or by the functor that will destroy it |
| LifeCycleRuns.LifeCycleSafe | WebServer/TcpServer.cpp:50-82 | over every interleaving of orderly steps of the accept loop and any number of I/O loops every state is as promised: no assertion has failed; each connection is established once, first, then handled, then closed once, then destroyed once, last; it is in the registry until it is down and erased once; while its channel is registered something owns it; every poller agrees with its kernel set; and epoll watches no connection that is down |
| LifeCycleRuns.StepKeepsExactly | WebServer/EventLoop.cpp:51-80 | from a state that satisfies the invariant, a step leaves a state as promised if and only if it is orderly: not an event that closes and then reads without an error, not a message callback in which a send fails an assertion, not a startRead on a connection that is not open; and under the same condition it keeps the invariant |
| LifeCycleRuns.RunSafeExactly | WebServer/EventLoop.cpp:51-80 | all states of a run are as promised if and only if all its steps are orderly |
| LifeCycleRuns.DownWatchedExactly | WebServer/TcpConnection.cpp:281-289 | behind one step that is orderly or a startRead, a connection is down and still watched by epoll exactly when that step was a startRead on it after its close |
| LifeCycleProgress.DownGetsErased | WebServer/TcpServer.cpp:69-82 | a connection that is down is out of the registry, for good, once the accept loop has made a full turn |
| LifeCycleProgress.ErasedGetsDestroyed | WebServer/TcpConnection.cpp:63-73 | a connection that is down and out of the registry has been destroyed, for good, and is held by nothing, once its own loop has made a full turn |
| LifeCycleProgress.DownGetsDestroyed | WebServer/TcpServer.cpp:69-82 | so a connection that is down is gone, for good, after a full turn of the accept loop and then one of its own loop |
| LifeCycleProgress.OwnedExactly | WebServer/TcpServer.cpp:61-81 | the registry or a queued functor holds a connection exactly until it has been destroyed |
| LifeCycleProgress.StepMovesOn | WebServer/EventLoop.cpp:51-80 | no orderly step brings a connection that is down back up, into the registry or into its poller |
| LifeCycleEffects.EventHandled | WebServer/Channel.cpp:40-71 | an event that leaves a connection open: input runs the message callback once, with its sends and its shutdown; writability, if there is write interest by then, is handled next, and once the buffer is drained turns that interest off and queues the write-complete callback; a failing read alone changes nothing |
| LifeCycleEffects.EventCloses | WebServer/Channel.cpp:40-71 | a hang-up with nothing to read, or end-of-file: the connection is down, with that last in its history, watched for nothing, and on its way out of the registry |
| LifeCycleEffects.PollHandsOver | WebServer/EpollPoller.cpp:53-67 | polling hands the loop exactly the connections whose descriptors the kernel reported |
| LifeCycleEffects.AcceptMakes | WebServer/TcpServer.cpp:50-67 | a new connection is registered and lives in the loop it was given, under the descriptor accepted; it is established at once in the accept loop, else that is queued in its own |
| LifeCycleEffects.TimeoutShutsDown | WebServer/http/HttpServer.h:48-55 | a wheel entry that dies begins to shut its connection down, if that is connected, and does nothing else |
| LifeCycleEffects.StartReadWatches | WebServer/TcpConnection.cpp:281-289 | startRead leaves a connection with read interest and its flag set, whatever it had |
| LifeCycleEffects.TurnMoves | WebServer/EventLoop.cpp:218-232 | the batch of a turn is all that was queued, and behind it the loop polls again |
| LifeCycleEffects.TaskRuns | WebServer/EventLoop.cpp:218-232 | what each of the five functors makes of its connection: state, interest, history and what it queues in turn |
| LifeCycleEffects.DestroyEnds | WebServer/TcpConnection.cpp:63-73 | in any state: a connection still connected goes down first; either way it leaves its poller, destruction last in its history |
| LifeCycleEffects.LoopGoesOn | WebServer/EventLoop.cpp:51-80 | no loop is ever stuck: it can poll, handle every ready channel with whatever happened there, take its queue, run each functor and poll again |
| LifeCycleEffects.LoopCanDo | WebServer/TcpServer.cpp:50-67 | while it handles events, code in a loop can use any connection of it, and the accept loop can accept on any descriptor no connection still to be destroyed has |
| LifeCycleEffects.UpdateAssertsExactly | WebServer/EpollPoller.cpp:69-128 | in any state, which changes of a mask and which removals pass the poller's assertions and epoll_ctl |
| LifeCycleEffects.AssertsExactly | WebServer/TcpConnection.cpp:52-73 | in any state, exactly when the assertions of establishing, closing, erasing and destroying a connection hold |
| LifeCycleEffects.PollAssertsExactly | WebServer/EpollPoller.cpp:53-67 | in any state, polling passes its assertion exactly when the table knows every reported descriptor |
| TcpServers.TcpServer.NewConnection | WebServer/TcpServer.cpp:50-67 | registers a new connecting connection under the next number and establishes it at once in the accept loop or queues that in its own loop, as the state machine says |
| TcpServers.TcpServer.RemoveConnection | WebServer/TcpServer.cpp:69-72 | erases at once in the accept loop, else queues the removal there |
| TcpServers.TcpServer.RemoveConnectionInLoop | WebServer/TcpServer.cpp:74-82 | erases the name, asserting it was there, and queues the destruction in the connection's loop |
| TcpServers.TcpServer.ConnectEstablished | WebServer/TcpConnection.cpp:52-61 | the step of the state machine, in place |
| TcpServers.TcpServer.ConnectDestroyed | WebServer/TcpConnection.cpp:63-73 | the step of the state machine, in place: also from a connection that is still connected |
| TcpServers.TcpServer.HandleClose | WebServer/TcpConnection.cpp:212-222 | the step of the state machine, in place |
| TcpServers.TcpServer.HandleRead | WebServer/TcpConnection.cpp:158-178 | message, end-of-file or error |
| TcpServers.TcpServer.HandleEvent | WebServer/Channel.cpp:40-71 | close, read and write in the order of the code, each on what the one before left |
| TcpServers.TcpServer.RunTask | WebServer/EventLoop.cpp:226-229 | what each queued functor does |
| LifeCycleRuns.DisorderlyHandle | WebServer/Channel.cpp:44-64 | a disorderly event always breaks the invariant; the assertions survive it exactly when the connection closes on it and a message is then read, and then the message callback has run on a connection that is down, against its life |
| LifeCycleRuns.HandleFailsExactly | WebServer/Channel.cpp:44-64 | handling an event fails an assertion exactly on a hang-up without input that also asks for a read and then reads end-of-file, or when a send of its message callback does |
| LifeCycleRuns.DisorderlyStartRead | WebServer/TcpConnection.cpp:281-289 | startRead on a connection of any loop that is not open breaks what is promised: one that is down is watched again, one not yet established is known to the poller before its time |
| LifeCycleRuns.LateStartRead | WebServer/TcpConnection.cpp:281-289 | startRead on a connection that is down and not yet destroyed, in any loop, puts its channel back into epoll |
| LifeCycleRuns.LateStartReadFails | WebServer/TcpConnection.cpp:212-222 | when nothing else waits in that loop, its next turn can deliver end-of-file and close the connection a second time, against its assertion |
| Buffers.DecodeEncode | WebServer/Buffer.cpp:161-214 | every signed integer of k bytes survives big-endian encoding and decoding |
| Buffers.BigEndian | WebServer/Buffer.cpp:161-214 | the most significant byte of an integer comes first, for the widths of 1, 2 and 4 bytes |
| Buffers.TopTwoBytes | WebServer/Buffer.cpp:133-138 | the two bytes readInt64 decodes give the value back exactly for 0 and -1 |
| Buffers.Buffer.constructor | WebServer/Buffer.cpp:9-16 | a new buffer is empty, with 8 bytes in reserve in front |
| Buffers.Buffer.MakeSpace | WebServer/Buffer.cpp:325-341 | growing keeps the readable bytes and makes room, with the array grown to just what is needed; when bytes are moved instead, the assertion fails and the readable bytes are not the old ones |
| Buffers.Buffer.MakeSpaceIntended | WebServer/Buffer.cpp:325-341 | with both indices set back by one distance, space for len bytes is always made and no readable byte is lost; where nothing has to grow they start behind the reserve, in the same array |
| Buffers.Buffer.AppendIntended | WebServer/Buffer.cpp:226-231 | on such a buffer any append succeeds, and the readable bytes are the old ones followed by the data |
| Buffers.Buffer.EnsureWritableBytes | WebServer/Buffer.cpp:238-243 | room for len bytes with the same readable bytes, exactly when no compaction is needed |
| Buffers.Buffer.Append | WebServer/Buffer.cpp:226-231 | the readable bytes are the old ones followed by the data |
| Buffers.Buffer.Prepend | WebServer/Buffer.cpp:268-274 | the readable bytes are the data followed by the old ones, exactly when the space in front suffices |
| Buffers.Buffer.Retrieve | WebServer/Buffer.cpp:67-80 | the first len readable bytes are removed; the indices return to the front when all are |
| Buffers.Buffer.RetrieveAsString | WebServer/Buffer.cpp:120-126 | returns and removes the first len readable bytes |
| Buffers.Buffer.RetrieveAll | WebServer/Buffer.cpp:109-113 | nothing is readable, and the indices are at the front |
| Buffers.Buffer.Write | WebServer/Buffer.cpp:48-52 | bytes copied behind the readable ones and then counted in follow them |
| Buffers.Buffer.UnWrite | WebServer/Buffer.cpp:54-58 | the last len readable bytes are taken back |
| Buffers.Buffer.Swap | WebServer/Buffer.cpp:60-65 | the two buffers exchange their readable bytes |
| Buffers.Buffer.Shrink | WebServer/Buffer.cpp:276-282 | the same bytes in a fresh array with room for the reserve; its assertions never fail |
| Buffers.Buffer.ReadFd | WebServer/Buffer.cpp:287-318 | what arrives is appended whole, whether it fits the free space or spills through the extra buffer; an error changes nothing |
| Buffers.Buffer.AppendInt | WebServer/Buffer.cpp:193-214 | appends the big-endian encoding |
| Buffers.Buffer.PeekInt | WebServer/Buffer.cpp:161-191 | decodes the first bytes; the assertion needs one byte more than the width, but for 8 |
| Buffers.Buffer.ReadInt | WebServer/Buffer.cpp:133-159 | returns what the peek decodes (two bytes for readInt64) and removes the whole width |
| Buffers.CompactionIntended | WebServer/Buffer.cpp:334-339 | after the copy, a window moved down by one distance at both ends holds the readable bytes, the window of the code does not |
| ConnectionSpec.SendSplits | WebServer/TcpConnection.cpp:96-155 | while no assertion fails, a message goes in order to the socket and, for the rest, behind the output buffer |
| ConnectionSpec.SendExactly | WebServer/TcpConnection.cpp:96-155 | in a reachable state: with nothing waiting the socket takes the first bytes and the rest is buffered, else all is buffered; write interest follows the buffer; the high-water callback is queued exactly when the buffer is lifted from below the mark to above it, write-complete exactly when the socket took all |
| ConnectionSpec.WriteExactly | WebServer/TcpConnection.cpp:180-210 | what the socket takes leaves the front of the buffer; taking the last of it turns write interest off, queues write-complete and half-closes a connection being shut down; taking less, or failing, does none of that |
| ConnectionSpec.ShutdownExactly | WebServer/TcpConnection.cpp:232-248 | shutting a connected connection down half-closes it at once, behind all bytes written, when nothing waits to be written, and else not yet |
| ConnectionSpec.HalfClosesExactly | WebServer/TcpConnection.cpp:232-248 | in any state, shutdown half-closes exactly a connected connection without write interest |
| ConnectionSpec.ForceCloseCloses | WebServer/TcpConnection.cpp:250-274 | after forceClose an open connection is down once the loop has run what is queued |
| ConnectionSpec.CloseExactly | WebServer/TcpConnection.cpp:212-222 | a close leaves the connection down and watched for nothing, its output as it was |
| ConnectionSpec.FunctorExactly | WebServer/http/HttpServer.cpp:25-35 | write-complete turns reading on, high-water turns it off, a forced close closes a connection still open |
| ConnectionSpec.ReadSwitched | WebServer/TcpConnection.cpp:281-304 | startRead and stopRead set both the flag and the interest, whatever they were, and change nothing else |
| ConnectionSpec.FirstBuffered | WebServer/Buffer.cpp:9-16 | the first bytes buffered fit the initial 1024 behind 8 in reserve, or widen the array to just what is needed |
| ConnectionSpec.SendFailsExactly | WebServer/Buffer.cpp:325-341 | in a reachable state a send fails an assertion exactly when the buffer is empty and the direct send reports an error, or when the space behind the buffered bytes is too small and together with the space in front is enough, so that the buffer compacts |
| ConnectionSpec.OutputStream | WebServer/TcpConnection.cpp:81-155 | in every state reached without a failed assertion, bytes given to the socket followed by the output buffer are all accepted messages in order; write interest is on exactly while an open connection has output; at most one half-close, with every accepted byte on the wire and none after, made as soon as the buffer is empty |
| ConnectionSpec.IntendedStream | WebServer/TcpConnection.cpp:81-155 | with an output buffer that compacts as it is meant to, the same in every state of every run, and an assertion fails exactly on a direct send that reports an error and on a second close |
| ConnectionSpec.CompactionFails | WebServer/Buffer.cpp:334-339 | a run that fails: 3000 bytes are buffered, 2000 leave, 500 more are sent |
| ConnectionSpec.RepliesPrecedeHalfClose | WebServer/http/HttpServer.cpp:66-69 | while no assertion fails, replies sent before a shutdown are on the wire, whole and in order, when the half-close is made, nothing follows it in any later run, and as long as the connection is open it has been made exactly when the buffer is empty |
| ConnectionSpec.HighWaterExactly | WebServer/TcpConnection.cpp:136-153 | a send queues the high-water callback exactly when it lifts the output buffer from below the mark to above it |
| ConnectionSpec.FlowSticks | WebServer/TcpConnection.cpp:136-153 | a high-water callback without a write-complete callback can leave reading off for ever |
| ConnectionSpec.FlowNeverSticksExactly | WebServer/http/HttpServer.cpp:25-48 | over all runs, reading that is off always has output with write interest, or a queued write-complete, to turn it on again, if and only if a high-water callback comes with a write-complete callback |
| TcpConnections.TcpConnection.constructor | WebServer/TcpConnection.cpp:25-40 | an established connection starts with an empty output buffer and read interest only |
| TcpConnections.TcpConnection.Send | WebServer/TcpConnection.cpp:81-94 | does what the specification's send does, exactly when the assertions of the specification's send hold |
| TcpConnections.TcpConnection.SendInLoop | WebServer/TcpConnection.cpp:96-155 | the same, and nothing on a connection already down |
| TcpConnections.TcpConnection.SendDirectly | WebServer/TcpConnection.cpp:111-118 | what the socket takes at once, and the write-complete callback when that is all |
| TcpConnections.TcpConnection.Spill | WebServer/TcpConnection.cpp:136-153 | the rest of a message goes behind the output buffer, write interest goes on, and the high-water callback is queued when the mark is crossed |
| TcpConnections.TcpConnection.HandleWrite | WebServer/TcpConnection.cpp:180-210 | what the socket takes leaves the buffer in order; draining turns write interest off, queues write-complete and completes a pending shutdown |
| TcpConnections.TcpConnection.Shutdown | WebServer/TcpConnection.cpp:232-239 | half-closes at once when no write is pending, else leaves it to the drain |
| TcpConnections.TcpConnection.ShutdownInLoop | WebServer/TcpConnection.cpp:241-248 | half-closes exactly when write interest is off |
| TcpConnections.TcpConnection.ForceClose | WebServer/TcpConnection.cpp:250-257 | an open connection begins to disconnect and queues its close |
| TcpConnections.TcpConnection.HandleClose | WebServer/TcpConnection.cpp:212-222 | goes down with no interest left; the assertion holds exactly for an open connection |
| TcpConnections.TcpConnection.StartReadInLoop | WebServer/TcpConnection.cpp:281-289 | read interest on |
| TcpConnections.TcpConnection.StopReadInLoop | WebServer/TcpConnection.cpp:296-304 | read interest off |
| TcpConnections.TcpConnection.RunPending | WebServer/http/HttpServer.cpp:25-35 | a queued high-water callback stops reading, a write-complete callback starts it, a queued close closes an open connection |
| TcpConnections.TcpConnection.RunOps | WebServer/TcpConnection.cpp:75-304 | any list of steps carried out in place gets to its end exactly when the specification's run does, and then to the same state |
| ConnectionProjection.EstablishedMirrored | WebServer/TcpConnection.cpp:52-61 | the output path and the life cycle start from the same connection: state, interest, reading flag and queued callbacks |
| ConnectionProjection.SendMirrored | WebServer/TcpConnection.cpp:96-155 | the outcome of a send in the life cycle is decided by the output path: refused exactly when an assertion fails there, else the two leave the same connection |
| ConnectionProjection.MessageMirrored | WebServer/http/HttpServer.cpp:53-79 | a message callback with any number of sends, followed or not by a shutdown, runs through in the output path exactly when none of its sends is refused in the life cycle, and then the two leave the same connection; once it is no longer connected it has no effect in either |
| ConnectionProjection.WriteMirrored | WebServer/TcpConnection.cpp:180-210 | the same for handling writability, which drains exactly when the socket takes all of a buffer |
| ConnectionProjection.CloseMirrored | WebServer/TcpConnection.cpp:212-222 | the same for a close, with the same assertion |
| ConnectionProjection.CallbackMirrored | WebServer/http/HttpServer.cpp:25-35 | the next callback of a connection in its loop's batch is the oldest its output path queued, and running it does the same to both |
| EventLoopSpec.StepKeeps | WebServer/EventLoop.cpp:51-110 | every step of every thread keeps the queue invariant |
| EventLoopSpec.NoLostWakeup | WebServer/EventLoop.cpp:102-110 | over every interleaving, a loop at poll with no readable eventfd and no thread on its way to write it has nothing queued and has not been told to quit |
| EventLoopSpec.BlockedExactly | WebServer/EventLoop.cpp:102-110 | over every run without any hypothesis: a loop at poll that nothing will wake has something queued exactly when its own thread queued it outside loop(), and has not been told to quit |
| EventLoopSpec.EarlyPushBlocks | WebServer/EventLoop.cpp:108-109 | a functor the loop thread queues outside loop() waits behind a poll that nothing ends but its timeout, so the hypothesis is needed |
| EventLoopSpec.FifoExactlyOnce | WebServer/EventLoop.cpp:102-110 | over every run: what has run, the current batch and the queue are together all functors pushed, in the order of their pushes; what has run are the first of them, one for each step that ran one |
| EventLoopSpec.StopsExactly | WebServer/EventLoop.cpp:51-80 | over every run: at the end of a batch the loop goes back to poll when nobody has called quit since it was started, else it stops, and it stops nowhere else |
| EventLoopSpec.CounterExactly | WebServer/EventLoop.cpp:102-110 | over every run the eventfd counts its writes since it was last read, up to its maximum |
| EventLoopSpec.TurnRuns | WebServer/EventLoop.cpp:51-80 | a turn, undisturbed, can be made from any poll: it reads the eventfd if it was woken, runs all that was queued in order, and polls again or stops if told to |
| EventLoopSpec.PushWakes | WebServer/EventLoop.cpp:102-110 | a functor queued from another thread is the last of the queue, and the loop is woken |
| EventLoopSpec.QuitWakes | WebServer/EventLoop.cpp:82-87 | quit from another thread tells the loop and wakes it |
| EventLoopSpec.OwnThreadWakes | WebServer/EventLoop.cpp:82-110 | the loop thread is woken exactly for what it queues while it runs a batch, and not for its own quit |
| EventLoopSpec.TurnDrainsQueue | WebServer/EventLoop.cpp:58-76 | when the loop is back at poll after a swap, everything queued before that swap has run |
| EventLoops.EventLoop.QueueInLoop | WebServer/EventLoop.cpp:102-110 | appends the functor, and wakes the loop unless called from the loop thread outside a batch |
| EventLoops.EventLoop.Weakup | WebServer/EventLoop.cpp:138-144 | afterwards the eventfd is readable |
| EventLoops.EventLoop.HandleRead | WebServer/EventLoop.cpp:200-208 | the counter is cleared |
| EventLoops.EventLoop.Quit | WebServer/EventLoop.cpp:82-87 | sets the flag, and wakes the loop when called from another thread |
| EventLoops.EventLoop.DoPendingFunctors | WebServer/EventLoop.cpp:218-232 | runs the functors queued at the call, in order, and only those; what they and other threads queue meanwhile stays for the next turn, and the loop will be woken for it |
| TimerSpec.DueCount | WebServer/TimerQueue.cpp:141-151 | the boundary lower_bound finds: all entries before it are due, the next one is not |
| TimerSafety.InsertSorted | WebServer/TimerQueue.cpp:180-194 | inserting keeps the order, adds exactly the entry, and puts it first exactly when it is the earliest |
| TimerSafety.RemoveSorted | WebServer/TimerQueue.cpp:107-112 | erasing keeps the order and removes exactly the entry |
| TimerSafety.InsertTwice | WebServer/TimerQueue.cpp:180-194 | an entry already in the set is not inserted again |
| TimerSafety.OpKeeps | WebServer/TimerQueue.cpp:80-119 | adding and cancelling keep: each living timer is in exactly one of set and batch under its own deadline, each created timer is living or freed, and freed once |
| TimerSafety.ResetOneKeeps | WebServer/TimerQueue.cpp:156-169 | putting back or deleting one expired timer keeps the same |
| TimerRuns.OpRefines | WebServer/TimerQueue.cpp:87-119 | adding and cancelling, also of a timer whose batch is running, change the plain map of planned timers as one would expect |
| TimerRuns.DueExactly | WebServer/TimerQueue.cpp:141-151 | exactly the living timers whose deadline has come fire, in deadline order, those with the same deadline in address order |
| TimerRuns.HandleReadRefines | WebServer/TimerQueue.cpp:121-178 | an expiry fires exactly those in order, with callbacks free to add and cancel; fired repeating timers not cancelled are due one interval later, all other fired timers are gone |
| TimerRuns.RunRefinesMap | WebServer/TimerQueue.cpp:80-194 | over every run the living timers and their deadlines are those of the plain map, the set and the accounts are in order, and nothing is left in a batch |
| TimerRuns.RestartExactly | WebServer/Timer.cpp:34-40 | a repeating timer is due again its interval, in seconds of 1000000 microseconds, after the expiry; any other gets a time that is not valid |
| TimerRuns.EverySecond | WebServer/http/HttpServer.cpp:91 | a timer of one second that fires, and is not cancelled, is planned for exactly 1000000 microseconds later |
| TimerRuns.ExpiryTakes | WebServer/TimerQueue.cpp:121-139 | an expiry begins no earlier than its time and takes as long as its callbacks |
| TimerArming.OpKeepsArmed | WebServer/TimerQueue.cpp:87-119 | adding, cancelling and waiting keep the kernel timer armed no later than the earliest deadline, up to the 100 microsecond floor |
| TimerArming.AddArmsExactly | WebServer/TimerQueue.cpp:45-57 | adding arms the kernel timer exactly for a deadline before all others, for that time but no closer than 100 microseconds |
| TimerArming.ResetArmsExactly | WebServer/TimerQueue.cpp:153-178 | reset arms the kernel timer for the deadline then earliest, no closer than 100 microseconds, exactly when a timer of the batch is put back in front of all others |
| TimerArming.FlagExactly | WebServer/TimerQueue.cpp:153-178 | the flag that guards re-arming is set exactly when some put-back timer comes before all others then in the set |
| TimerArming.HandleReadArmedExactly | WebServer/TimerQueue.cpp:121-178 | after an expiry the earliest deadline is armed if and only if, before reset, nothing else waits in the set, or a callback's addTimer armed the kernel timer, or a repeating timer is to be put back in front |
| TimerArming.QuietExpiryArmedExactly | WebServer/TimerQueue.cpp:121-178 | when callbacks leave the queue alone: if and only if no timer survives the expiry, or a due repeating timer is due again before every survivor |
| TimerArming.IntendedRearm | WebServer/TimerQueue.cpp:171-177 | re-arming whenever a valid deadline is left: the earliest deadline is armed in every state of every run from the empty queue |
| TimerArming.SurvivorUnarmed | WebServer/TimerQueue.cpp:171-177 | two one-shot timers: after the first fires the second is not armed |
| TimerQueues.Timer.constructor | WebServer/Timer.cpp:7-12 | a timer with its deadline, interval and sequence number |
| TimerQueues.Timer.Restart | WebServer/Timer.cpp:34-40 | a repeating timer is due one interval after now, a one-shot timer gets the invalid time |
| TimerQueues.TimerQueue.ResetTimerfd | WebServer/TimerQueue.cpp:45-58 | the kernel timer is set to the deadline, or to 100 microseconds from now when that is sooner |
| TimerQueues.TimerQueue.Insert | WebServer/TimerQueue.cpp:180-194 | inserts in order and reports whether the earliest deadline changed |
| TimerQueues.TimerQueue.AddTimer | WebServer/TimerQueue.cpp:80-96 | creates the timer, inserts it and arms the kernel timer when it is the earliest |
| TimerQueues.TimerQueue.Cancel | WebServer/TimerQueue.cpp:103-119 | frees a waiting timer; one whose batch is running is only marked |
| TimerQueues.TimerQueue.GetExpired | WebServer/TimerQueue.cpp:141-151 | splits the set at the due boundary |
| TimerQueues.TimerQueue.Reset | WebServer/TimerQueue.cpp:153-178 | puts back or deletes every expired timer and re-arms as the guard says |
| TimerQueues.TimerQueue.HandleRead | WebServer/TimerQueue.cpp:121-139 | the whole expiry, with any re-entrant callbacks, equals the specification |
| HttpSpec.FindFirst | WebServer/http/HttpParser.cpp:322-329 | searching gives the first occurrence at or after a position, if there is any |
| HttpSpec.ParseLine | WebServer/http/HttpParser.cpp:159-193 | the position stays within the input and moves past a complete line; a bad line stands at a bare line end; only complete lines change the input |
| HttpSpec.ReadLoop | WebServer/http/HttpParser.cpp:103-157 | the position stays within the input and never goes back, a connection once kept stays kept, and an answer that consumes nothing stands at a bare line end |
| HttpSpec.StuckForEver | WebServer/http/HttpParser.cpp:88-101 | at a bare line end on a kept connection every turn sends one more response and moves nothing |
| HttpSpec.ProcessEndsExactly | WebServer/http/HttpParser.cpp:88-101 | what `Diverges` means: the loop of process takes turn after turn for ever, sending a response each time; every other outcome means that it ends |
| HttpDivergence.ScanFinds | WebServer/http/HttpParser.cpp:159-193 | the scanner finds a complete line exactly when one stands in front, else stops at a bare line end, or finds none and waits |
| HttpDivergence.DivergesExactly | WebServer/http/HttpParser.cpp:88-193 | for any input, read as whole lines, whole bodies and line feeds behind a body that ends in CR, up to a rest in front of which nothing is whole: process runs for ever if and only if no response was sent on a connection not kept, the connection is kept behind these pieces, and the rest holds a bare carriage return or line feed; it reads in front of the input if and only if the rest is the whole input and starts with a line feed |
| HttpDivergence.MessageDivergesExactly | WebServer/http/HttpServer.cpp:56-66 | the same of a message as it arrives |
| HttpDivergence.Divided | WebServer/http/HttpParser.cpp:103-157 | every input can be read in that way |
| HttpDivergence.ConsumeLineFeed | WebServer/http/HttpParser.cpp:180-187 | a line feed behind a body that ends in CR is taken, with that CR, for an empty line of the head |
| HttpDivergence.SplitLineFeed | WebServer/http/HttpParser.cpp:180-187 | between two requests that line is answered as a bad request, and process goes on behind the line feed |
| HttpDivergence.BareLineEndDiverges | WebServer/http/HttpParser.cpp:164-192 | any bare carriage return or line feed in the line of the head that comes next makes process run for ever on a kept connection |
| HttpGrammar.RequestLineExactly | WebServer/http/HttpParser.cpp:318-344 | a request line is accepted if and only if it is a known method, a target without spaces and a known version, with one space between them |
| HttpGrammar.LineAccepted | WebServer/http/HttpParser.cpp:318-344 | what such a line leaves in the request and the response |
| HttpGrammar.RequestLineRefused | WebServer/http/HttpParser.cpp:318-344 | what a refused line leaves: the parts in front of the first wrong one, and that this one is not known |
| HttpGrammar.PathExactly | WebServer/http/HttpParser.cpp:368-378 | the path of any target is what begins at the first slash, behind "http://" if it starts with that; without a slash the old path stands |
| HttpGrammar.AtoiExactly | WebServer/http/HttpParser.cpp:423-424 | a length line of white space, a sign, a number and anything behind it is read as the low 32 bits of that number, and as a size wraps around 64 bits when negative |
| HttpGrammar.AtoiNothing | WebServer/http/HttpParser.cpp:423-424 | without a digit the length is 0 |
| HttpUnits.ScannedLine | WebServer/http/HttpParser.cpp:159-193 | scanning a line leaves its text as a C string, blanks its CRLF and touches nothing else |
| HttpUnits.ProcessRefinesFeed | WebServer/http/HttpParser.cpp:88-193 | on the bytes of whole lines and bodies, process does exactly what feeding those lines and bodies one by one does: same requests and responses, same state, all input consumed |
| HttpUnits.MessageRefinesFeed | WebServer/http/HttpServer.cpp:53-66 | the same for a message that arrives on a connection |
| HttpUnits.ChunkingHarmless | WebServer/http/HttpServer.cpp:56-66 | on a kept connection a stream cut anywhere behind a line end or a body gives the same requests, responses and state as the stream in one piece |
| HttpRoundTrip.RequestLineRecovered | WebServer/http/HttpParser.cpp:318-344 | a printed request line gives back method, path and version |
| HttpRoundTrip.PathRecovered | WebServer/http/HttpParser.cpp:368-378 | the path of an origin-form or absolute-form target is recovered |
| HttpRoundTrip.FieldRecovered | WebServer/http/HttpParser.cpp:401-429 | a printed header line is entered in the table and has exactly its effect on length and connection |
| HttpRoundTrip.AfterFieldsIs | WebServer/http/HttpParser.cpp:401-429 | after any header lines the table is their override-union, the last announced length counts, and one keep-alive line is enough |
| HttpRoundTrip.AnsweredAs | WebServer/http/HttpParser.cpp:195-216 | a HEAD request is answered by its head, "/hello" and a file found by the resource, a missing file by not found, one that cannot be read by an internal error |
| HttpRoundTrip.PipelinedRoundTrip | WebServer/http/HttpParser.cpp:88-193 | any list of well-formed requests (each announcing its own body length) printed back to back, the first keeping the connection, gives exactly one response per request in order, each made from that request's method, path, version, body and the header table so far; the connection is kept, the input is empty and the position 0 |
| HttpRoundTrip.UnkeptRoundTrip | WebServer/http/HttpServer.cpp:66-69 | on a connection not kept, a well-formed request that does not keep it is answered, and nothing behind it, whatever bytes follow; process says that the connection is to be closed |
| HttpRoundTrip.Answered | WebServer/http/HttpParser.cpp:88-101 | of pipelined requests all are answered when the connection is kept or the first keeps it, else the first only; process keeps the connection exactly in the first case |
| HttpLimits.LengthReadBackExactly | WebServer/http/HttpParser.cpp:423-424 | a printed Content-Length is read back exactly when it is below 2^31, or is 2^64-1 |
| HttpLimits.AnnouncedOwnLength | WebServer/http/HttpParser.cpp:423-424 | a request that ends its header lines with its own body length announces it correctly |
| HttpLimits.CutRequestLineInvalid | WebServer/http/HttpParser.cpp:318-344 | any proper rest of a valid request line is invalid |
| HttpLimits.CutRecoveredExactly | WebServer/http/HttpParser.cpp:103-157 | a valid request line that arrives in two messages is recovered if and only if the cut is not inside it |
| HttpCuts.CutLineForgotten | WebServer/http/HttpParser.cpp:103-157 | a line of the head that arrives in two messages is read exactly as though its first part had never been sent |
| HttpCuts.CutInsideCRLF | WebServer/http/HttpParser.cpp:180-182 | cut between its CR and its LF, the parser reads in front of its input |
| HttpCuts.CutNameTaken | WebServer/http/HttpParser.cpp:401-429 | a header line cut in its name is taken as the field its rest names |
| HttpCuts.CutFieldExactly | WebServer/http/HttpParser.cpp:401-429 | wherever a header line is cut, its rest is taken as a field exactly when it holds a separator with something behind it, and else answered as a bad request |
| HttpCuts.CutBeforeCRLF | WebServer/http/HttpParser.cpp:403-413 | cut just before its CRLF, the head ends there and the request is answered without the field |
| HttpCuts.CutBodyRecoveredExactly | WebServer/http/HttpParser.cpp:431-440 | a body that arrives in two messages is recovered if and only if it is not cut inside |
| HttpCuts.FirstMessageKeptExactly | WebServer/http/HttpServer.cpp:66-69 | a first message that ends within the head keeps the connection if and only if it already holds the keep-alive line |
| HttpCuts.FreshChunksExactly | WebServer/http/HttpServer.cpp:56-69 | pipelined requests on a fresh connection, cut at line ends and around bodies with the first cut in the first head, give what they give in one piece if and only if the first chunk holds the keep-alive line |
| HttpParser.HttpParser.ParseLine | WebServer/http/HttpParser.cpp:159-193 | the scanning loop, blanking in place, equals the specification |
| HttpParser.HttpParser.ParseRequestLine | WebServer/http/HttpParser.cpp:318-344 | equals the specification, with every early exit |
| HttpParser.HttpParser.SetMethod | WebServer/http/HttpParser.cpp:346-366 | records the method, or that it is invalid |
| HttpParser.HttpParser.SetURI | WebServer/http/HttpParser.cpp:368-378 | records the path from the first slash behind the scheme; without one the old path stands |
| HttpParser.HttpParser.SetVersion | WebServer/http/HttpParser.cpp:380-399 | records the version in request and response, or that it is unknown |
| HttpParser.HttpParser.ParseHeaders | WebServer/http/HttpParser.cpp:401-429 | equals the specification: blank line, missing colon, missing value, length, keep-alive |
| HttpParser.HttpParser.ParseContent | WebServer/http/HttpParser.cpp:431-440 | takes the body exactly when all of it has arrived |
| HttpParser.HttpParser.DoRequest | WebServer/http/HttpParser.cpp:195-216 | HEAD, found, missing or unreadable |
| HttpParser.HttpParser.TakeLine | WebServer/http/HttpParser.cpp:112-135 | the two cases of the main loop for lines of the head equal the specification |
| HttpParser.HttpParser.TakeBody | WebServer/http/HttpParser.cpp:136-143 | the case of the main loop for a body: the request is answered once all of it is there, else nothing changes |
| HttpParser.HttpParser.ProcessRead | WebServer/http/HttpParser.cpp:103-157 | the main loop equals the specification |
| HttpParser.HttpParser.Init | WebServer/http/HttpParser.cpp:61-77 | back to the request line; request and keep-alive stay |
| HttpParser.HttpParser.Process | WebServer/http/HttpParser.cpp:88-101 | equals the specification whenever the source's loop ends |
| HttpParser.HttpParser.NewInput | WebServer/http/HttpParser.h:60-64 | replaces the input |
| HttpParser.HttpParser.AppendInput | WebServer/http/HttpParser.h:66-69 | appends to the input |
| HttpParser.HttpParser.OnMessage | WebServer/http/HttpServer.cpp:53-66 | takes the message in and processes it |
| LoggingSpec.StepKeeps | WebServer/base/AsyncLogging.cpp:39-127 | every append and every stretch of the backend keeps ownership, distinctness and conservation, and uses no missing buffer |
| LoggingSpec.OwnershipHolds | WebServer/base/AsyncLogging.cpp:74-124 | over every interleaving the current buffer is present, no two holders share a buffer, at the loop head both spares are present, distinct and empty, and back() is never taken of an empty batch |
| LoggingSpec.LogConserved | WebServer/base/AsyncLogging.cpp:39-127 | while no batch exceeds 32 buffers: file, batch being written, full buffers and current buffer are all accepted lines in lock order |
| LoggingSpec.DroppedExactly | WebServer/base/AsyncLogging.cpp:95-110 | each batch over the limit leaves in the file exactly one notice, with its time and the number of buffers dropped, and its first two buffers; every other batch is written whole |
| LoggingSpec.LeftIsWritten | WebServer/base/AsyncLogging.cpp:95-110 | of more than 32 buffers a batch leaves the notice, with its time and the number dropped, and then the first buffer and the second; of fewer, all in order |
| LoggingSpec.AppendExactly | WebServer/base/AsyncLogging.cpp:39-62 | a line that fits goes behind what the current buffer holds; else that buffer is full, and the spare one, or a new one when there is none, takes its place |
| LoggingSpec.BuffersKept | WebServer/base/AsyncLogging.cpp:39-127 | no step loses or invents a buffer: an append adds the one it makes, writing gives up just the dropped ones, recycling adds none |
| LoggingSpec.BuffersShort | WebServer/base/LogStream.h:21-28 | in every run each buffer holds less than its size |
| LoggingSpec.BackendTurns | WebServer/base/AsyncLogging.cpp:74-127 | from its head the backend can always make its turn, with what is to be left of everything accepted in the file and both spares back |
| LoggingSpec.AcceptedExactly | WebServer/base/LogStream.h:21-28 | the accepted lines are all lines appended if and only if each is shorter than a buffer (or empty) |
| AsyncLoggings.AsyncLogging.Append | WebServer/base/AsyncLogging.cpp:39-62 | equals the specification: fill, or hand the full buffer on and continue in the next or a new one |
| AsyncLoggings.AsyncLogging.SwapBuffers | WebServer/base/AsyncLogging.cpp:80-92 | equals the specification of the lock region |
| AsyncLoggings.AsyncLogging.WriteBatch | WebServer/base/AsyncLogging.cpp:94-110 | drops, gives notice and writes as the specification says |
| AsyncLoggings.AsyncLogging.Recycle | WebServer/base/AsyncLogging.cpp:112-124 | two buffers of the batch become the spares |
| AsyncLoggings.AsyncLogging.Turn | WebServer/base/AsyncLogging.cpp:74-127 | one undisturbed turn with fewer than 32 full buffers writes everything accepted and restores the spares |
| Digits.ReadPrint | WebServer/base/LogStream.cpp:10-44 | the printed digits are canonical and their positional reading is the number |
| LogStream.ConvertCorrectExactly | WebServer/base/LogStream.cpp:28-44 | convert prints the number if and only if it is not negative |
| LogStream.NegativeConverted | WebServer/base/LogStream.cpp:28-44 | of a negative value convert prints the last digit alone, with a sign when there are more |
| LogStream.ConvertedReadsBack | WebServer/base/LogStream.cpp:28-54 | for every 64-bit value of either signedness what convert writes, with its terminator, fits the space demanded; for values not negative it is canonical and reads back |
| LogStream.ConvertedHexFits | WebServer/base/LogStream.cpp:118-129 | prefix, digits and terminator of every 64-bit pointer fit the space demanded, and the digits read back |
| LogStream.WrittenConverted | WebServer/base/LogStream.cpp:32-43 | digits written last first, a sign and the reversal come to the printed value |
| LogStream.FixedBuffer.Append | WebServer/base/LogStream.h:21-28 | data shorter than the free space is kept whole, other data is dropped whole |
| LogStream.FixedBuffer.Add | WebServer/base/LogStream.h:47-50 | bytes already written behind the content are taken in |
| LogStream.FixedBuffer.Reset | WebServer/base/LogStream.h:51-54 | nothing is in use |
| LogStream.Reverse | WebServer/base/LogStream.cpp:42 | the written stretch is reversed in place and the rest untouched |
| LogStream.Convert | WebServer/base/LogStream.cpp:29-44 | writes exactly the converted value and a terminator, returns its length, touches nothing in front |
| LogStream.ConvertHex | WebServer/base/LogStream.cpp:10-26 | writes exactly the canonical hexadecimal digits and a terminator, returns their number |
| LogStream.FormatInteger | WebServer/base/LogStream.cpp:46-54 | a number is appended whole, or not at all when space is short |
| LogStream.FormatPointer | WebServer/base/LogStream.cpp:118-130 | a pointer is appended whole with its prefix, or not at all |
| WheelSpec.AliveExactlyIdle | WebServer/http/HttpServer.cpp:66-84 | with one shared wheel of n buckets an entry is alive exactly while fewer than n ticks have passed since its last activity |
| WheelSpec.SilentEntryExactly | WebServer/http/HttpServer.cpp:37-84 | after an activity a silent connection is kept exactly as long as fewer than n ticks pass, however other traffic runs |
| WheelSpec.TickExpiresExactly | WebServer/http/HttpServer.h:48-55 | a tick shuts down exactly the connections whose last activity lies n ticks back, counting itself |
| WheelSpec.CopiesNeverExpire | WebServer/http/HttpServer.cpp:86-92 | with the two copies of the code no connected entry ever dies and no tick drops anything |
| WheelSpec.CopiesAgreeExactly | WebServer/http/HttpServer.cpp:86-92 | the copies treat an entry as one shared wheel would exactly until it has been idle for n ticks |
| TimingWheels.TimingWheel.OnConnection | WebServer/http/HttpServer.cpp:37-51 | a new entry goes into the last bucket |
| TimingWheels.TimingWheel.OnMessage | WebServer/http/HttpServer.cpp:70-78 | a living entry goes into the last bucket, a dead one stays dead |
| TimingWheels.TimingWheel.OnTimer | WebServer/http/HttpServer.cpp:81-84 | the first bucket is dropped, and exactly the entries held nowhere else die |

## Left out

- Response text, MIME table and file access: a response is the request it is made from and its outcome; whether a file is found, missing or unreadable is a parameter (`Files`). `WebServer/http/HttpResponse.h` is not part of this model.
- System calls: their results are parameters; `epoll_ctl` legality, the eventfd counter and the armed time are state.
- Life cycle: the interleaving of the loops is the state machine `LifeCycle`, on values; the classes of `TcpServer.dfy` carry out single steps. A connection is named by the number in its name, sharing through shared pointers appears as ownership (`Owned`), and the connection's loop and the accept loop are reached directly. Closing by `forceClose` is modelled for one connection (`ConnectionSpec`), not in the life cycle.
- EventLoop.loop: the loop itself is the state machine `EventLoopSpec`, whose steps other threads interleave; the class holds the methods it calls. Callbacks are numbers, and what they queue is an argument.
- TimerQueue containers: the ordered set is a sequence kept sorted, the heap a map from addresses to timer objects. Cancelling through the id of a timer already freed has no defined meaning and is excluded by `OpOk`. Timestamps do not overflow, and intervals are real numbers.
- AsyncLogging buffers: they are values with identities, so that sharing can be spoken of; the byte array with its position is `LogStream.FixedBuffer`. Appending and the stretches of the backend are atomic, as the mutex makes the former and the lock region. When the backend wakes (flush interval, notifications), the start and stop handshake and the rolling of log files are left out: a turn may begin at any time.
- LifeCycleRuns.LifeCycleSafe: for orderly runs; `RunSafeExactly` shows that no other run keeps the promise. Which sends are refused is decided in `ConnectionSpec` (`SendFailsExactly`); the life cycle carries the outcome, as `ConnectionProjection` says.
- LifeCycleRuns.LateStartReadFails: one schedule, with nothing else waiting in the loop; what a late startRead breaks in any case is `DisorderlyStartRead` and `DownWatchedExactly`.
- LifeCycleProgress.DownGetsDestroyed: that the loops do make their turns is left to the scheduler and the kernel; `EventLoopSpec.NoLostWakeup` says that none sleeps while something is queued.
- ConnectionProjection.MessageMirrored: for connections with a write-complete callback, as HttpServer sets it up, and without `forceClose`.
- EventLoopSpec.NoLostWakeup: for loop threads that queue functors only inside loop(); `BlockedExactly` needs no such hypothesis, and `EarlyPushBlocks` shows what happens otherwise.
- HttpUnits.ChunkingHarmless: for kept connections and cuts at line ends and around bodies; `HttpCuts` and `CutRecoveredExactly` say what other cuts do.
- HttpParser.HttpParser.DoRequest: the file looked up is that of the request's own path; behind a response on a connection not kept, which is being closed, the source appends the path to the last one looked up (`WebServer/http/HttpParser.cpp:450`, set back only at `:76`).
- HttpParser.HttpParser.Process: returns nothing where the source's loop would never return or reads in front of the input.
- Sends from other threads (`WebServer/TcpConnection.cpp:91` copies a message that does not own its bytes), `forceCloseWithDelay`, destruction of a running server, data races on plain flags, memory ordering.
- Acceptor, Socket, InetAddress, Connector, TcpClient, ThreadPool, EventLoopThreadPool, LogFile, CountDownLatch, Thread and the benchmark client: plumbing, unused, or simple.
- Floating-point and time formatting, and the remaining stream operators of LogStream.
