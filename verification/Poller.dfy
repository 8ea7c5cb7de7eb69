/**
 Channels and the epoll poller.

 A channel owns an interest mask; every change of the mask is pushed through
 the poller, which keeps its own table of channels and the kernel's interest
 set in step.  `PollerSpec` gives both transitions as functions of values (any
 type `C` may name a channel) and proves what they keep over whole runs;
 `EpollPoller` holds the classes that carry them out in place.
 */
module PollerSpec {

  type Mask = bv8  // the flags used fit in the low three bits

  const NONE_EVENT: Mask := 0
  const READ_EVENT: Mask := 0x1 | 0x2  // EPOLLIN | EPOLLPRI
  const WRITE_EVENT: Mask := 0x4       // EPOLLOUT

  predicate IsReading(m: Mask) { READ_EVENT & m != 0 }

  predicate IsWriting(m: Mask) { WRITE_EVENT & m != 0 }

  /** What a mask asks for, without its encoding. */
  datatype Interest = Interest(read: bool, write: bool)

  function InterestOf(m: Mask): Interest { Interest(IsReading(m), IsWriting(m)) }

  /** Setting or clearing one interest does what it says and leaves the other alone. */
  lemma InterestBitsIndependent(m: Mask)
    ensures IsReading(m | READ_EVENT) && !IsReading(m & !READ_EVENT)
    ensures IsWriting(m | WRITE_EVENT) && !IsWriting(m & !WRITE_EVENT)
    ensures IsWriting(m | READ_EVENT) == IsWriting(m & !READ_EVENT) == IsWriting(m)
    ensures IsReading(m | WRITE_EVENT) == IsReading(m & !WRITE_EVENT) == IsReading(m)
    ensures !IsReading(NONE_EVENT) && !IsWriting(NONE_EVENT)
  {
  }

  lemma InterestUpdates(m: Mask)
    ensures InterestOf(m | READ_EVENT) == InterestOf(m).(read := true)
    ensures InterestOf(m & !READ_EVENT) == InterestOf(m).(read := false)
    ensures InterestOf(m | WRITE_EVENT) == InterestOf(m).(write := true)
    ensures InterestOf(m & !WRITE_EVENT) == InterestOf(m).(write := false)
    ensures InterestOf(NONE_EVENT) == Interest(false, false)
  {
    InterestBitsIndependent(m);
  }

  /** The masks in bits of epoll: EPOLLIN and EPOLLPRI are 1 and 2, EPOLLOUT is 4. */
  lemma MaskBits(m: Mask)
    ensures IsReading(m) <==> m & 1 != 0 || m & 2 != 0
    ensures IsWriting(m) <==> m & 4 != 0
    ensures m | READ_EVENT == m | 1 | 2 && m | WRITE_EVENT == m | 4 && NONE_EVENT == 0
  {
  }

  // kNew, kAdded and kDeleted.
  datatype Index = New | Added | Deleted

  datatype Chan = Chan(fd: int, events: Mask, index: Index)

  /** `channels` is the poller's own table, `kernel` the interest set held by epoll. */
  datatype Poller<C> = Poller(channels: map<int, C>, kernel: map<int, Mask>)

  /** `ok`: every assertion on the path holds and every epoll_ctl call is legal
      (ADD of an absent descriptor, MOD or DEL of a present one). */
  datatype Outcome<C> = Outcome(poller: Poller<C>, chan: Chan, ok: bool)

  function UpdateChannel<C(==)>(p: Poller<C>, c: C, ch: Chan): Outcome<C> {
    var fd := ch.fd;
    match ch.index
    case New =>
      Outcome(Poller(p.channels[fd := c], p.kernel[fd := ch.events]), ch.(index := Added),
              fd !in p.channels && fd !in p.kernel)
    case Deleted =>
      Outcome(p.(kernel := p.kernel[fd := ch.events]), ch.(index := Added),
              fd in p.channels && p.channels[fd] == c && fd !in p.kernel)
    case Added =>
      var known := fd in p.channels && p.channels[fd] == c && fd in p.kernel;
      if ch.events == NONE_EVENT then
        Outcome(p.(kernel := p.kernel - {fd}), ch.(index := Deleted), known)
      else
        Outcome(p.(kernel := p.kernel[fd := ch.events]), ch, known)
  }

  function RemoveChannel<C(==)>(p: Poller<C>, c: C, ch: Chan): Outcome<C> {
    var fd := ch.fd;
    Outcome(Poller(p.channels - {fd}, if ch.index == Added then p.kernel - {fd} else p.kernel),
            ch.(index := New),
            && fd in p.channels && p.channels[fd] == c && ch.index != New
            && (ch.index == Added ==> fd in p.kernel))
  }

  /** The table holds exactly the channels that are not New, each under its own
      descriptor, and the kernel watches exactly the Added ones with their current masks. */
  ghost predicate Coherent<C(!new)>(p: Poller<C>, chans: map<C, Chan>) {
    && (forall fd <- p.channels ::
          p.channels[fd] in chans && chans[p.channels[fd]].fd == fd && chans[p.channels[fd]].index != New)
    && (forall c <- chans :: chans[c].index != New ==>
          chans[c].fd in p.channels && p.channels[chans[c].fd] == c)
    && (forall fd :: fd in p.kernel <==> fd in p.channels && chans[p.channels[fd]].index == Added)
    && (forall fd <- p.kernel :: p.kernel[fd] == chans[p.channels[fd]].events)
  }

  /** Changing the mask of a channel keeps the poller coherent.  The assertions
      hold exactly when the channel is already known or its descriptor is free. */
  lemma UpdateKeepsCoherent<C(!new)>(p: Poller<C>, chans: map<C, Chan>, c: C, events: Mask)
    requires Coherent(p, chans) && c in chans
    ensures var o := UpdateChannel(p, c, chans[c].(events := events));
      && (o.ok <==> (chans[c].index == New ==> chans[c].fd !in p.channels))
      && (o.ok ==> Coherent(o.poller, chans[c := o.chan]))
  {
    var o := UpdateChannel(p, c, chans[c].(events := events));
    var after := chans[c := o.chan];
    if o.ok {
      forall fd | fd in o.poller.channels
        ensures o.poller.channels[fd] in after && after[o.poller.channels[fd]].fd == fd
        ensures after[o.poller.channels[fd]].index != New
      {
      }
    }
  }

  lemma RemoveKeepsCoherent<C(!new)>(p: Poller<C>, chans: map<C, Chan>, c: C)
    requires Coherent(p, chans) && c in chans
    ensures var o := RemoveChannel(p, c, chans[c]);
      && (o.ok <==> chans[c].index != New)
      && (o.ok ==> Coherent(o.poller, chans[c := o.chan]) && chans[c].fd !in o.poller.channels)
  {
    var o := RemoveChannel(p, c, chans[c]);
    var after := chans[c := o.chan];
    if o.ok {
      forall fd | fd in o.poller.channels
        ensures o.poller.channels[fd] in after && after[o.poller.channels[fd]].fd == fd
        ensures after[o.poller.channels[fd]].index != New
      {
        assert fd in p.channels && p.channels[fd] != c;
      }
    }
  }

  // Whole runs: any number of channels calling enable/disable (a new mask) and remove.

  datatype Call<C> = Change(c: C, events: Mask) | Remove(c: C)

  datatype World<C> = World(poller: Poller<C>, chans: map<C, Chan>)

  function Apply<C(==)>(w: World<C>, call: Call<C>): World<C>
    requires call.c in w.chans
  {
    var o := if call.Change? then UpdateChannel(w.poller, call.c, w.chans[call.c].(events := call.events))
             else RemoveChannel(w.poller, call.c, w.chans[call.c]);
    World(o.poller, w.chans[call.c := o.chan])
  }

  predicate CallOk<C(==)>(w: World<C>, call: Call<C>)
    requires call.c in w.chans
  {
    if call.Change? then UpdateChannel(w.poller, call.c, w.chans[call.c].(events := call.events)).ok
    else RemoveChannel(w.poller, call.c, w.chans[call.c]).ok
  }

  function Run<C(==)>(w: World<C>, calls: seq<Call<C>>): World<C>
    requires forall call <- calls :: call.c in w.chans
    decreases |calls|
  {
    if calls == [] then w else Run(Apply(w, calls[0]), calls[1..])
  }

  predicate RunOk<C(==)>(w: World<C>, calls: seq<Call<C>>)
    requires forall call <- calls :: call.c in w.chans
    decreases |calls|
  {
    calls == [] || (CallOk(w, calls[0]) && RunOk(Apply(w, calls[0]), calls[1..]))
  }

  ghost predicate DistinctFds<C(!new)>(chans: map<C, Chan>) {
    forall c, d :: c in chans && d in chans && c != d ==> chans[c].fd != chans[d].fd
  }

  /** A call sequence asks for removal only of channels that are registered at that time. */
  predicate RemovesRegistered<C(==)>(w: World<C>, calls: seq<Call<C>>)
    requires forall call <- calls :: call.c in w.chans
    decreases |calls|
  {
    calls == [] ||
    ((calls[0].Remove? ==> w.chans[calls[0].c].index != New) && RemovesRegistered(Apply(w, calls[0]), calls[1..]))
  }

  /** Poller coherence over whole runs: with distinct descriptors every assertion and
      every epoll_ctl call of a run succeeds exactly when only registered channels are
      removed, and then the final state is coherent. */
  lemma {:induction false} RunCoherent<C(!new)>(w: World<C>, calls: seq<Call<C>>)
    requires forall call <- calls :: call.c in w.chans
    requires Coherent(w.poller, w.chans) && DistinctFds(w.chans)
    ensures RunOk(w, calls) <==> RemovesRegistered(w, calls)
    ensures RunOk(w, calls) ==> Coherent(Run(w, calls).poller, Run(w, calls).chans)
    decreases |calls|
  {
    if calls == [] {
    } else {
      var call := calls[0];
      var c := call.c;
      if call.Change? {
        UpdateKeepsCoherent(w.poller, w.chans, c, call.events);
      } else {
        RemoveKeepsCoherent(w.poller, w.chans, c);
      }
      if CallOk(w, call) {
        RunCoherent(Apply(w, call), calls[1..]);
      }
    }
  }
}

module EpollPoller {
  import opened PollerSpec

  class Channel {
    const fd: int
    var events: Mask
    var index: Index

    constructor (fd: int)
      ensures this.fd == fd && events == NONE_EVENT && index == New
    {
      this.fd := fd;
      events, index := NONE_EVENT, New;
    }

    function Value(): Chan
      reads this
    {
      Chan(fd, events, index)
    }

    method EnableReading(poller: EpollPoller) returns (ok: bool)
      modifies this, poller
      ensures poller.Updated(old(poller.Value()), this, old(Value()).(events := old(events) | READ_EVENT), ok)
    {
      events := events | READ_EVENT;
      ok := poller.UpdateChannel(this);
    }

    method DisableReading(poller: EpollPoller) returns (ok: bool)
      modifies this, poller
      ensures poller.Updated(old(poller.Value()), this, old(Value()).(events := old(events) & !READ_EVENT), ok)
    {
      events := events & !READ_EVENT;
      ok := poller.UpdateChannel(this);
    }

    method EnableWriting(poller: EpollPoller) returns (ok: bool)
      modifies this, poller
      ensures poller.Updated(old(poller.Value()), this, old(Value()).(events := old(events) | WRITE_EVENT), ok)
    {
      events := events | WRITE_EVENT;
      ok := poller.UpdateChannel(this);
    }

    method DisableWriting(poller: EpollPoller) returns (ok: bool)
      modifies this, poller
      ensures poller.Updated(old(poller.Value()), this, old(Value()).(events := old(events) & !WRITE_EVENT), ok)
    {
      events := events & !WRITE_EVENT;
      ok := poller.UpdateChannel(this);
    }

    method DisableAll(poller: EpollPoller) returns (ok: bool)
      modifies this, poller
      ensures poller.Updated(old(poller.Value()), this, old(Value()).(events := NONE_EVENT), ok)
    {
      events := NONE_EVENT;
      ok := poller.UpdateChannel(this);
    }
  }

  class EpollPoller {
    var channels: map<int, Channel>
    var kernel: map<int, Mask>

    constructor ()
      ensures channels == map[] && kernel == map[]
    {
      channels, kernel := map[], map[];
    }

    function Value(): Poller<Channel>
      reads this
    {
      Poller(channels, kernel)
    }

    /** The poller and `channel` hold what UpdateChannel makes of `before` and `asked`. */
    ghost predicate Updated(before: Poller<Channel>, channel: Channel, asked: Chan, ok: bool)
      reads this, channel
    {
      PollerSpec.UpdateChannel(before, channel, asked) == Outcome(Value(), channel.Value(), ok)
    }

    method UpdateChannel(channel: Channel) returns (ok: bool)
      modifies this, channel`index
      ensures Updated(old(Value()), channel, old(channel.Value()), ok)
    {
      var fd := channel.fd;
      if channel.index == New || channel.index == Deleted {
        if channel.index == New {
          ok := fd !in channels;
          channels := channels[fd := channel];
        } else {
          ok := fd in channels && channels[fd] == channel;
        }
        channel.index := Added;
        var legal := Add(fd, channel.events);
        ok := ok && legal;
      } else {
        ok := fd in channels && channels[fd] == channel;
        if channel.events == NONE_EVENT {
          var legal := Delete(fd);
          ok := ok && legal;
          channel.index := Deleted;
        } else {
          var legal := Modify(fd, channel.events);
          ok := ok && legal;
        }
      }
    }

    method RemoveChannel(channel: Channel) returns (ok: bool)
      modifies this, channel`index
      ensures PollerSpec.RemoveChannel(old(Value()), channel, old(channel.Value()))
           == Outcome(Value(), channel.Value(), ok)
    {
      var fd := channel.fd;
      ok := fd in channels && channels[fd] == channel && channel.index != New;
      channels := channels - {fd};
      if channel.index == Added {
        var legal := Delete(fd);
        ok := ok && legal;
      }
      channel.index := New;
    }

    // The three epoll_ctl operations; each reports whether the kernel accepts it.

    method Add(fd: int, events: Mask) returns (legal: bool)
      modifies this`kernel
      ensures legal == (fd !in old(kernel)) && kernel == old(kernel)[fd := events]
    {
      legal := fd !in kernel;
      kernel := kernel[fd := events];
    }

    method Modify(fd: int, events: Mask) returns (legal: bool)
      modifies this`kernel
      ensures legal == (fd in old(kernel)) && kernel == old(kernel)[fd := events]
    {
      legal := fd in kernel;
      kernel := kernel[fd := events];
    }

    method Delete(fd: int) returns (legal: bool)
      modifies this`kernel
      ensures legal == (fd in old(kernel)) && kernel == old(kernel) - {fd}
    {
      legal := fd in kernel;
      kernel := kernel - {fd};
    }
  }
}
