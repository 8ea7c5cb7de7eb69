/**
 Safety of the connection life cycle over every interleaving of the loops.

 What one connection can observe of the system is its View; `Good` says which
 views are possible.  Steps on one connection leave the views of all others
 alone, so each operation is proved on a single view.
 */
module LifeCycleSafety {
  import opened PollerSpec
  import opened ConnectionState
  import opened LifeCycle

  /** Born: waiting to be established.  Live: open.  Closed: down, still in the
      registry.  Erased: out of the registry, still in the poller.  Gone: neither. */
  datatype Stage = Born | Live | Closed | Erased | Gone

  function StageOf(k: Conn, registered: bool): Stage {
    match k.state
    case Connecting => Born
    case Connected => Live
    case Disconnecting => Live
    case Disconnected => if registered then Closed else if k.chan.index != New then Erased else Gone
  }

  ghost function Stages(s: Sys, c: nat): Stage
    requires c < |s.conns|
  {
    StageOf(s.conns[c], c in s.registry)
  }

  ghost function Count(lp: Loop, t: Task): nat {
    multiset(lp.batch)[t] + multiset(lp.pending)[t]
  }

  ghost function Callbacks(q: seq<Task>, c: nat): nat {
    multiset(q)[WriteComplete(c)] + multiset(q)[HighWater(c)]
  }

  /** Everything the system holds about one connection: its record, its registry
      entry, its loop's turn, and how many functors of each kind wait for it. */
  datatype View = View(conn: Conn, registered: bool, phase: Phase, active: bool,
                       establish: nat, remove: nat, destroy: nat, inBatch: nat, inPending: nat)

  ghost function ViewOf(s: Sys, c: nat): View
    requires Shaped(s) && c < |s.conns|
  {
    var k := s.conns[c];
    var lp := s.loops[k.loop];
    View(k, c in s.registry, lp.phase, c in lp.active,
         Count(lp, Establish(c)), Count(s.loops[BASE], RemoveInLoop(c)), Count(lp, Destroy(c)),
         Callbacks(lp.batch, c), Callbacks(lp.pending, c))
  }

  predicate AllHandled(h: seq<Event>) { forall e <- h :: e == Handled }

  /** established first, then handlers, then down, then destroyed: each at most once, in this order. */
  predicate HistoryOk(h: seq<Event>, stage: Stage) {
    var n := |h|;
    match stage
    case Born => h == []
    case Live => n >= 1 && h[0] == Established && AllHandled(h[1..])
    case Closed => n >= 2 && h[0] == Established && AllHandled(h[1..n-1]) && h[n-1] == Down
    case Erased => n >= 2 && h[0] == Established && AllHandled(h[1..n-1]) && h[n-1] == Down
    case Gone => n >= 3 && h[0] == Established && AllHandled(h[1..n-2]) && h[n-2] == Down && h[n-1] == Destroyed
  }

  ghost predicate Good(v: View) {
    var stage := StageOf(v.conn, v.registered);
    && (stage.Born? || stage.Live? ==> v.registered)
    && v.establish == (if stage.Born? then 1 else 0)
    && v.remove == (if stage.Closed? then 1 else 0)
    && v.destroy == (if stage.Erased? then 1 else 0)
    && (v.inBatch + v.inPending > 0 ==> stage.Live?)
    && (v.inPending > 0 ==> v.phase == Handling && !v.active)
    && (v.active ==> v.phase == Handling && stage.Live? && v.conn.chan.index == Added)
    && (stage.Born? ==> v.conn.chan.index == New)
    && (stage.Born? || stage.Gone? ==> v.conn.chan.events == NONE_EVENT)
    && (stage.Live? ==> v.conn.chan.index != New)
    && (stage.Closed? || stage.Erased? ==> v.conn.chan.index == Deleted && v.conn.chan.events == NONE_EVENT)
    && HistoryOk(v.conn.history, stage)
  }

  /** Functors wait in the right loop: removals in loop 0, all others in the connection's own. */
  predicate InRightLoop(conns: seq<Conn>, t: Task, l: nat) {
    t.c < |conns| && (if t.RemoveInLoop? then l == BASE else conns[t.c].loop == l)
  }

  ghost predicate QueuePlaced(conns: seq<Conn>, q: seq<Task>, l: nat) {
    forall t <- q :: InRightLoop(conns, t, l)
  }

  ghost predicate Placed(s: Sys) {
    forall l: nat {:trigger QueuePlaced(s.conns, s.loops[l].batch, l)} {:trigger QueuePlaced(s.conns, s.loops[l].pending, l)} ::
      l < |s.loops| ==> QueuePlaced(s.conns, s.loops[l].batch, l) && QueuePlaced(s.conns, s.loops[l].pending, l)
  }

  /** A batch exists only while it is run, ready channels only while events are handled. */
  ghost predicate Turns(s: Sys) {
    forall l: nat :: l < |s.loops| ==>
      && (s.loops[l].phase != Running ==> s.loops[l].batch == [])
      && (s.loops[l].phase != Handling ==> s.loops[l].active == {})
      && (forall c <- s.loops[l].active :: c < |s.conns| && s.conns[c].loop == l)
  }

  ghost predicate FdsDistinct(s: Sys) {
    forall c, d :: 0 <= c < d < |s.conns| && Stages(s, c) != Gone && Stages(s, d) != Gone ==>
      s.conns[c].chan.fd != s.conns[d].chan.fd
  }

  ghost function Chans(s: Sys, l: nat): map<nat, Chan> {
    map c: nat | 0 <= c < |s.conns| && s.conns[c].loop == l :: s.conns[c].chan
  }

  ghost predicate Pollers(s: Sys) {
    forall l: nat {:trigger Chans(s, l)} :: l < |s.loops| ==> Coherent(s.loops[l].poller, Chans(s, l))
  }

  ghost predicate Sound(s: Sys) {
    Shaped(s) && s.ok && Pollers(s) && Placed(s) && Turns(s)
  }

  ghost predicate Global(s: Sys) {
    Sound(s) && FdsDistinct(s)
  }

  ghost predicate InvBut(s: Sys, c: nat) {
    Global(s) && forall d: nat :: d < |s.conns| && d != c ==> Good(ViewOf(s, d))
  }

  ghost predicate Inv(s: Sys) {
    Global(s) && forall d: nat :: d < |s.conns| ==> Good(ViewOf(s, d))
  }

  // ------------------------------------------------------------ poller updates

  ghost predicate SameButChan(s: Sys, r: Sys, c: nat)
    requires c < |s.conns|
  {
    && |r.conns| == |s.conns| && |r.loops| == |s.loops| && r.registry == s.registry
    && r.conns[c].(chan := s.conns[c].chan) == s.conns[c]
    && (forall d :: 0 <= d < |s.conns| && d != c ==> r.conns[d] == s.conns[d])
    && forall l :: 0 <= l < |s.loops| ==> SameTurn(s.loops[l], r.loops[l])
  }

  ghost predicate SameTurn(lp: Loop, lr: Loop) {
    lr.phase == lp.phase && lr.active == lp.active && lr.batch == lp.batch && lr.pending == lp.pending
  }

  /** How a poller call on `c` shows in the channels of loop `l`. */
  lemma PlacedChans(s: Sys, c: nat, o: Outcome<nat>, l: nat)
    requires Shaped(s) && c < |s.conns|
    ensures Chans(Place(s, c, o), l) == if l == s.conns[c].loop then Chans(s, l)[c := o.chan] else Chans(s, l)
  {
  }

  lemma PlacedSame(s: Sys, c: nat, o: Outcome<nat>)
    requires Shaped(s) && c < |s.conns|
    ensures SameButChan(s, Place(s, c, o), c)
  {
  }

  /** A poller call that keeps the poller of `c` coherent keeps all of them coherent. */
  lemma PlaceKeeps(s: Sys, c: nat, o: Outcome<nat>)
    requires Shaped(s) && Pollers(s) && c < |s.conns|
    requires Coherent(o.poller, Chans(s, s.conns[c].loop)[c := o.chan])
    ensures Pollers(Place(s, c, o))
  {
    forall l: nat | l < |s.loops|
      ensures Coherent(Place(s, c, o).loops[l].poller, Chans(Place(s, c, o), l))
    {
      PlacedChans(s, c, o, l);
      assert Coherent(s.loops[l].poller, Chans(s, l));
    }
  }

  lemma SetEventsKeeps(s: Sys, c: nat, events: Mask)
    requires Shaped(s) && Pollers(s) && c < |s.conns|
    requires s.conns[c].chan.index == New ==> s.conns[c].chan.fd !in s.loops[s.conns[c].loop].poller.channels
    ensures var r := SetEvents(s, c, events);
      && Pollers(r) && r.ok == s.ok && SameButChan(s, r, c)
      && r.conns[c].chan.fd == s.conns[c].chan.fd && r.conns[c].chan.events == events
      && r.conns[c].chan.index == (if s.conns[c].chan.index == Added && events == NONE_EVENT then Deleted else Added)
  {
    var k := s.conns[c];
    var o := UpdateChannel(s.loops[k.loop].poller, c, k.chan.(events := events));
    assert Coherent(s.loops[k.loop].poller, Chans(s, k.loop)) && Chans(s, k.loop)[c] == k.chan;
    UpdateKeepsCoherent(s.loops[k.loop].poller, Chans(s, k.loop), c, events);
    PlaceKeeps(s, c, o);
    PlacedSame(s, c, o);
  }

  lemma UnregisterKeeps(s: Sys, c: nat)
    requires Shaped(s) && Pollers(s) && c < |s.conns| && s.conns[c].chan.index != New
    ensures var r := Unregister(s, c);
      && Pollers(r) && r.ok == s.ok && SameButChan(s, r, c)
      && r.conns[c].chan == s.conns[c].chan.(index := New)
  {
    var k := s.conns[c];
    var o := RemoveChannel(s.loops[k.loop].poller, c, k.chan);
    assert Coherent(s.loops[k.loop].poller, Chans(s, k.loop)) && Chans(s, k.loop)[c] == k.chan;
    RemoveKeepsCoherent(s.loops[k.loop].poller, Chans(s, k.loop), c);
    PlaceKeeps(s, c, o);
    PlacedSame(s, c, o);
  }

  /** Updates that touch neither channels nor pollers keep the pollers coherent. */
  lemma PollersFrame(s: Sys, r: Sys)
    requires Pollers(s) && |r.conns| == |s.conns| && |r.loops| == |s.loops|
    requires forall c :: 0 <= c < |s.conns| ==> r.conns[c].loop == s.conns[c].loop && r.conns[c].chan == s.conns[c].chan
    requires forall l :: 0 <= l < |s.loops| ==> r.loops[l].poller == s.loops[l].poller
    ensures Pollers(r)
  {
    forall l: nat | l < |s.loops|
      ensures Coherent(r.loops[l].poller, Chans(r, l))
    {
      assert Chans(r, l) == Chans(s, l);
    }
  }

  lemma ChannelOwner(s: Sys, l: nat, fd: int)
    requires Pollers(s) && l < |s.loops| && fd in s.loops[l].poller.channels
    ensures var d := s.loops[l].poller.channels[fd];
      d < |s.conns| && s.conns[d].loop == l && s.conns[d].chan.fd == fd && s.conns[d].chan.index != New
  {
    assert Coherent(s.loops[l].poller, Chans(s, l));
  }

  /** A descriptor of a connection that is not yet registered is free in its poller. */
  lemma BornFdFree(s: Sys, c: nat)
    requires InvBut(s, c) && c < |s.conns| && Stages(s, c) == Born && s.conns[c].chan.index == New
    ensures s.conns[c].chan.fd !in s.loops[s.conns[c].loop].poller.channels
  {
    var l := s.conns[c].loop;
    var fd := s.conns[c].chan.fd;
    if fd in s.loops[l].poller.channels {
      ChannelOwner(s, l, fd);
      var d := s.loops[l].poller.channels[fd];
      SettledNotGone(s, c, d);
      assert false;
    }
  }

  lemma SettledNotGone(s: Sys, c: nat, d: nat)
    requires InvBut(s, c) && d < |s.conns| && s.conns[d].chan.index != New && d != c
    ensures Stages(s, d) != Gone
  {
    assert Good(ViewOf(s, d));
  }

  // -------------------------------------------------- operations on one connection

  /** `r` differs from `s` only in connection `c`, its registry entry, its pollers and
      functors naming it. */
  ghost predicate OnlyTouches(s: Sys, r: Sys, c: nat) {
    && Shaped(s) && Kept(s, r)
    && (forall d :: 0 <= d < |s.conns| && d != c ==> r.conns[d] == s.conns[d] && (d in r.registry <==> d in s.registry))
    && forall l :: 0 <= l < |s.loops| ==>
        && r.loops[l].phase == s.loops[l].phase && r.loops[l].active - {c} == s.loops[l].active - {c}
        && SameTasks(s.loops[l].batch, r.loops[l].batch, c)
        && SameTasks(s.loops[l].pending, r.loops[l].pending, c)
  }

  /** The same functors wait, but for those naming `c`. */
  ghost predicate SameTasks(q: seq<Task>, r: seq<Task>, c: nat) {
    forall t: Task :: t.c != c ==> multiset(r)[t] == multiset(q)[t]
  }

  /** The frame: whatever only touches `c` leaves every other connection's view alone. */
  lemma OthersKeep(s: Sys, r: Sys, c: nat)
    requires OnlyTouches(s, r, c)
    ensures forall d: nat :: d < |r.conns| && d != c ==> ViewOf(r, d) == ViewOf(s, d)
  {
    forall d: nat | d < |r.conns| && d != c
      ensures ViewOf(r, d) == ViewOf(s, d)
    {
      var l := s.conns[d].loop;
      assert SameTasks(s.loops[l].batch, r.loops[l].batch, c) && SameTasks(s.loops[l].pending, r.loops[l].pending, c);
      assert SameTasks(s.loops[BASE].batch, r.loops[BASE].batch, c);
      assert SameTasks(s.loops[BASE].pending, r.loops[BASE].pending, c);
      assert d in r.loops[l].active <==> d in r.loops[l].active - {c};
      assert d in s.loops[l].active <==> d in s.loops[l].active - {c};
    }
  }

  /** A harmless change at `c`: it only touches `c` and keeps all that is global. */
  ghost predicate Harmless(s: Sys, r: Sys, c: nat) {
    && c < |s.conns| && OnlyTouches(s, r, c)
    && Sound(r) && r.conns[c].chan.fd == s.conns[c].chan.fd
  }

  lemma HarmlessTrans(s: Sys, m: Sys, r: Sys, c: nat)
    requires Harmless(s, m, c) && Harmless(m, r, c)
    ensures Harmless(s, r, c)
  {
  }

  lemma PlacedFrame(s: Sys, r: Sys)
    requires Placed(s) && |r.conns| == |s.conns| && |r.loops| == |s.loops|
    requires forall c :: 0 <= c < |s.conns| ==> r.conns[c].loop == s.conns[c].loop
    requires forall l :: 0 <= l < |s.loops| ==> r.loops[l].batch == s.loops[l].batch && r.loops[l].pending == s.loops[l].pending
    ensures Placed(r)
  {
    forall l: nat | l < |r.loops|
      ensures QueuePlaced(r.conns, r.loops[l].batch, l) && QueuePlaced(r.conns, r.loops[l].pending, l)
    {
      assert QueuePlaced(s.conns, s.loops[l].batch, l) && QueuePlaced(s.conns, s.loops[l].pending, l);
    }
  }

  lemma HarmlessRewrite(s: Sys, c: nat, k: Conn)
    requires Sound(s) && c < |s.conns| && k.loop == s.conns[c].loop && k.chan == s.conns[c].chan
    ensures var r := s.(conns := s.conns[c := k]);
      Harmless(s, r, c) && ViewOf(r, c) == ViewOf(s, c).(conn := k)
  {
    PollersFrame(s, s.(conns := s.conns[c := k]));
    PlacedFrame(s, s.(conns := s.conns[c := k]));
  }

  lemma HarmlessUnlist(s: Sys, c: nat)
    requires Sound(s) && c < |s.conns|
    ensures var r := s.(registry := s.registry - {c});
      Harmless(s, r, c) && ViewOf(r, c) == ViewOf(s, c).(registered := false)
  {
    PollersFrame(s, s.(registry := s.registry - {c}));
  }

  lemma PlacedPush(s: Sys, l: nat, t: Task)
    requires Placed(s) && l < |s.loops| && InRightLoop(s.conns, t, l)
    ensures Placed(Push(s, l, t))
  {
    var r := Push(s, l, t);
    forall m: nat | m < |s.loops|
      ensures QueuePlaced(r.conns, r.loops[m].batch, m) && QueuePlaced(r.conns, r.loops[m].pending, m)
    {
      assert QueuePlaced(s.conns, s.loops[m].batch, m) && QueuePlaced(s.conns, s.loops[m].pending, m);
    }
  }

  lemma PushTouches(s: Sys, l: nat, t: Task)
    requires Shaped(s) && l < |s.loops| && t.c < |s.conns|
    ensures OnlyTouches(s, Push(s, l, t), t.c)
  {
    assert multiset(s.loops[l].pending + [t]) == multiset(s.loops[l].pending) + multiset{t};
    assert SameTasks(s.loops[l].pending, s.loops[l].pending + [t], t.c);
  }

  lemma HarmlessPush(s: Sys, l: nat, t: Task)
    requires Sound(s) && l < |s.loops| && InRightLoop(s.conns, t, l)
    ensures Harmless(s, Push(s, l, t), t.c)
  {
    PollersFrame(s, Push(s, l, t));
    PlacedPush(s, l, t);
    PushTouches(s, l, t);
  }

  lemma HarmlessPlace(s: Sys, r: Sys, c: nat)
    requires Sound(s) && c < |s.conns| && SameButChan(s, r, c)
    requires Pollers(r) && r.ok && r.conns[c].chan.fd == s.conns[c].chan.fd
    ensures Harmless(s, r, c) && ViewOf(r, c) == ViewOf(s, c).(conn := s.conns[c].(chan := r.conns[c].chan))
  {
    PlacedFrame(s, r);
    assert SameTurn(s.loops[BASE], r.loops[BASE]) && SameTurn(s.loops[s.conns[c].loop], r.loops[s.conns[c].loop]);
  }

  lemma HarmlessSetEvents(s: Sys, c: nat, events: Mask)
    requires Sound(s) && c < |s.conns|
    requires s.conns[c].chan.index == New ==> s.conns[c].chan.fd !in s.loops[s.conns[c].loop].poller.channels
    ensures var r := SetEvents(s, c, events);
      && Harmless(s, r, c) && ViewOf(r, c) == ViewOf(s, c).(conn := s.conns[c].(chan := r.conns[c].chan))
      && r.conns[c].chan.events == events
      && r.conns[c].chan.index == (if s.conns[c].chan.index == Added && events == NONE_EVENT then Deleted else Added)
  {
    SetEventsKeeps(s, c, events);
    HarmlessPlace(s, SetEvents(s, c, events), c);
  }

  lemma HarmlessUnregister(s: Sys, c: nat)
    requires Sound(s) && c < |s.conns| && s.conns[c].chan.index != New
    ensures var r := Unregister(s, c);
      && Harmless(s, r, c) && ViewOf(r, c) == ViewOf(s, c).(conn := s.conns[c].(chan := r.conns[c].chan))
      && r.conns[c].chan == s.conns[c].chan.(index := New)
  {
    UnregisterKeeps(s, c);
    HarmlessPlace(s, Unregister(s, c), c);
  }

  lemma HarmlessKeepsOthers(s: Sys, r: Sys, c: nat)
    requires InvBut(s, c) && Harmless(s, r, c)
    requires Stages(s, c) == Gone ==> Stages(r, c) == Gone
    ensures InvBut(r, c)
  {
    OthersKeep(s, r, c);
    forall d | 0 <= d < |s.conns| && d != c
      ensures Stages(r, d) == Stages(s, d)
    {
    }
  }

  /** A harmless change that leaves `c` with a good view restores the invariant. */
  lemma Restored(s: Sys, r: Sys, c: nat)
    requires InvBut(s, c) && Harmless(s, r, c) && Good(ViewOf(r, c))
    requires Stages(s, c) == Gone ==> Stages(r, c) == Gone
    ensures Inv(r)
  {
    HarmlessKeepsOthers(s, r, c);
  }

  function One(b: bool): nat { if b then 1 else 0 }

  predicate IsCallback(t: Task) { t.WriteComplete? || t.HighWater? }

  /** How many functors of each kind loop `m` holds for the connection a pushed one names. */
  lemma PushCount(s: Sys, l: nat, t: Task, m: nat)
    requires l < |s.loops| && m < |s.loops|
    ensures var lp := s.loops[m]; var lr := Push(s, l, t).loops[m];
      && lr.phase == lp.phase && lr.active == lp.active && lr.batch == lp.batch
      && Count(lr, Establish(t.c)) == Count(lp, Establish(t.c)) + One(m == l && t.Establish?)
      && Count(lr, RemoveInLoop(t.c)) == Count(lp, RemoveInLoop(t.c)) + One(m == l && t.RemoveInLoop?)
      && Count(lr, Destroy(t.c)) == Count(lp, Destroy(t.c)) + One(m == l && t.Destroy?)
      && Callbacks(lr.pending, t.c) == Callbacks(lp.pending, t.c) + One(m == l && IsCallback(t))
  {
    assert multiset(s.loops[l].pending + [t]) == multiset(s.loops[l].pending) + multiset{t};
  }

  /** How a push shows in the view of the connection it names. */
  lemma PushView(s: Sys, l: nat, t: Task)
    requires Shaped(s) && l < |s.loops| && InRightLoop(s.conns, t, l)
    ensures var v := ViewOf(s, t.c);
      ViewOf(Push(s, l, t), t.c) ==
        v.(establish := v.establish + One(t.Establish?), remove := v.remove + One(t.RemoveInLoop?),
           destroy := v.destroy + One(t.Destroy?), inPending := v.inPending + One(IsCallback(t)))
  {
    PushOwn(s, l, t);
    PushBase(s, l, t);
  }

  lemma PushOwn(s: Sys, l: nat, t: Task)
    requires Shaped(s) && l < |s.loops| && InRightLoop(s.conns, t, l)
    ensures var v := ViewOf(s, t.c); var w := ViewOf(Push(s, l, t), t.c);
      && w.conn == v.conn && w.registered == v.registered && w.phase == v.phase && w.active == v.active
      && w.inBatch == v.inBatch && w.establish == v.establish + One(t.Establish?)
      && w.destroy == v.destroy + One(t.Destroy?) && w.inPending == v.inPending + One(IsCallback(t))
  {
    PushCount(s, l, t, s.conns[t.c].loop);
  }

  lemma PushBase(s: Sys, l: nat, t: Task)
    requires Shaped(s) && l < |s.loops| && InRightLoop(s.conns, t, l)
    ensures ViewOf(Push(s, l, t), t.c).remove == ViewOf(s, t.c).remove + One(t.RemoveInLoop?)
  {
    PushCount(s, l, t, BASE);
  }

  lemma EstablishEffect(s: Sys, c: nat)
    requires Sound(s) && c < |s.conns| && s.conns[c].state == Connecting
    requires s.conns[c].chan.index == New ==> s.conns[c].chan.fd !in s.loops[s.conns[c].loop].poller.channels
    ensures var r := ConnectEstablished(s, c);
      && Harmless(s, r, c) && ViewOf(r, c) == ViewOf(s, c).(conn := r.conns[c])
      && r.conns[c].state == Connected && r.conns[c].history == s.conns[c].history + [Established]
      && r.conns[c].chan.index != New
  {
    var s1 := SetState(Assert(s, true), c, Connected);
    HarmlessRewrite(s, c, s1.conns[c]);
    HarmlessSetEvents(s1, c, s1.conns[c].chan.events | READ_EVENT);
    var s2 := SetEvents(s1, c, s1.conns[c].chan.events | READ_EVENT);
    HarmlessTrans(s, s1, s2, c);
    var r := Log(s2, c, Established);
    HarmlessRewrite(s2, c, r.conns[c]);
    HarmlessTrans(s, s2, r, c);
  }

  lemma EstablishKeeps(s: Sys, c: nat)
    requires InvBut(s, c) && c < |s.conns|
    requires var v := ViewOf(s, c);
      Good(v.(establish := v.establish + 1)) && StageOf(v.conn, v.registered) == Born
    ensures Inv(ConnectEstablished(s, c))
  {
    BornFdFree(s, c);
    EstablishEffect(s, c);
    var r := ConnectEstablished(s, c);
    assert r.conns[c].history[1..] == [];
    Restored(s, r, c);
  }

  lemma RemoveEffect(s: Sys, c: nat)
    requires Sound(s) && c < |s.conns| && c in s.registry
    ensures var r := RemoveConnectionInLoop(s, c);
      && Harmless(s, r, c)
      && ViewOf(r, c) == ViewOf(s, c).(registered := false, destroy := ViewOf(s, c).destroy + 1)
  {
    var s1 := s.(registry := s.registry - {c});
    HarmlessUnlist(s, c);
    HarmlessPush(s1, s1.conns[c].loop, Destroy(c));
    PushView(s1, s1.conns[c].loop, Destroy(c));
    HarmlessTrans(s, s1, Push(s1, s1.conns[c].loop, Destroy(c)), c);
  }

  lemma DestroyEffect(s: Sys, c: nat)
    requires Sound(s) && c < |s.conns| && s.conns[c].state == Disconnected && s.conns[c].chan.index != New
    ensures var r := ConnectDestroyed(s, c);
      && Harmless(s, r, c)
      && ViewOf(r, c) == ViewOf(s, c).(conn := r.conns[c])
      && r.conns[c].state == Disconnected && r.conns[c].chan == s.conns[c].chan.(index := New)
      && r.conns[c].history == s.conns[c].history + [Destroyed]
  {
    var s1 := Unregister(s, c);
    HarmlessUnregister(s, c);
    var r := Log(s1, c, Destroyed);
    HarmlessRewrite(s1, c, r.conns[c]);
    HarmlessTrans(s, s1, r, c);
  }

  lemma DownEffect(s: Sys, c: nat)
    requires Sound(s) && c < |s.conns| && s.conns[c].chan.index == Added
    ensures var r := Log(SetEvents(SetState(s, c, Disconnected), c, NONE_EVENT), c, Down);
      && Harmless(s, r, c)
      && ViewOf(r, c) == ViewOf(s, c).(conn := r.conns[c])
      && r.conns[c].state == Disconnected && r.conns[c].chan.index == Deleted && r.conns[c].chan.events == NONE_EVENT
      && r.conns[c].history == s.conns[c].history + [Down]
  {
    var s1 := SetState(s, c, Disconnected);
    HarmlessRewrite(s, c, s1.conns[c]);
    HarmlessSetEvents(s1, c, NONE_EVENT);
    var s2 := SetEvents(s1, c, NONE_EVENT);
    HarmlessTrans(s, s1, s2, c);
    var r := Log(s2, c, Down);
    HarmlessRewrite(s2, c, r.conns[c]);
    HarmlessTrans(s, s2, r, c);
  }

  /** Closing hands the connection over: to loop 0's queue, or, when that is its own
      loop, straight out of the registry and to its destruction. */
  lemma CloseEffect(s: Sys, c: nat)
    requires Sound(s) && c < |s.conns| && s.conns[c].chan.index == Added && c in s.registry
    requires s.conns[c].state in {Connected, Disconnecting}
    ensures var r := HandleClose(s, c); var v := ViewOf(s, c);
      && Harmless(s, r, c)
      && r.conns[c].state == Disconnected && r.conns[c].chan.index == Deleted && r.conns[c].chan.events == NONE_EVENT
      && r.conns[c].history == s.conns[c].history + [Down]
      && ViewOf(r, c) == if s.conns[c].loop == BASE
                         then v.(conn := r.conns[c], registered := false, destroy := v.destroy + 1)
                         else v.(conn := r.conns[c], remove := v.remove + 1)
  {
    assert Assert(s, true) == s;
    var s3 := Log(SetEvents(SetState(s, c, Disconnected), c, NONE_EVENT), c, Down);
    DownEffect(s, c);
    if s.conns[c].loop == BASE {
      RemoveEffect(s3, c);
    } else {
      HarmlessPush(s3, BASE, RemoveInLoop(c));
      PushView(s3, BASE, RemoveInLoop(c));
    }
    HarmlessTrans(s, s3, HandleClose(s, c), c);
  }

  /** A change at an open connection that neither opens nor closes it. */
  ghost predicate StaysLive(s: Sys, r: Sys, c: nat) {
    && Harmless(s, r, c) && Stages(s, c).Live? && Stages(r, c).Live?
    && ViewOf(r, c) == ViewOf(s, c).(conn := r.conns[c], inPending := ViewOf(r, c).inPending)
    && r.conns[c].chan.index != New
    && (s.conns[c].state == Disconnecting ==> r.conns[c].state == Disconnecting)
  }

  lemma StaysLiveTrans(s: Sys, m: Sys, r: Sys, c: nat)
    requires StaysLive(s, m, c) && StaysLive(m, r, c)
    ensures StaysLive(s, r, c)
  {
    HarmlessTrans(s, m, r, c);
  }

  ghost predicate Open(s: Sys, c: nat) {
    Sound(s) && c < |s.conns| && Stages(s, c).Live? && s.conns[c].chan.index != New
  }

  lemma StaysLiveSame(s: Sys, c: nat)
    requires Open(s, c)
    ensures StaysLive(s, s, c)
  {
  }

  lemma StaysLiveLog(s: Sys, c: nat)
    requires Open(s, c)
    ensures StaysLive(s, Log(s, c, Handled), c)
    ensures Log(s, c, Handled).conns[c].history == s.conns[c].history + [Handled]
  {
    HarmlessRewrite(s, c, Log(s, c, Handled).conns[c]);
  }

  lemma StaysLiveSetEvents(s: Sys, c: nat, events: Mask)
    requires Open(s, c)
    ensures StaysLive(s, SetEvents(s, c, events), c)
    ensures SetEvents(s, c, events).conns[c].history == s.conns[c].history
    ensures ViewOf(SetEvents(s, c, events), c).inPending == ViewOf(s, c).inPending
    ensures events != NONE_EVENT ==> SetEvents(s, c, events).conns[c].chan.index == Added
  {
    HarmlessSetEvents(s, c, events);
  }

  lemma StaysLiveReading(s: Sys, c: nat, events: Mask, on: bool)
    requires Open(s, c)
    ensures var r := SetReading(SetEvents(s, c, events), c, on);
      && StaysLive(s, r, c) && r.conns[c].history == s.conns[c].history && ViewOf(r, c).inPending == ViewOf(s, c).inPending
      && (events != NONE_EVENT ==> r.conns[c].chan.index == Added)
  {
    StaysLiveSetEvents(s, c, events);
    var m := SetEvents(s, c, events);
    HarmlessRewrite(m, c, m.conns[c].(reading := on));
    StaysLiveTrans(s, m, SetReading(m, c, on), c);
  }

  lemma StartReadEffect(s: Sys, c: nat)
    requires Open(s, c)
    ensures var r := StartRead(s, c);
      && StaysLive(s, r, c) && r.conns[c].history == s.conns[c].history && ViewOf(r, c).inPending == ViewOf(s, c).inPending
      && (s.conns[c].chan.index == Added ==> r.conns[c].chan.index == Added)
  {
    InterestBitsIndependent(s.conns[c].chan.events);
    StaysLiveReading(s, c, s.conns[c].chan.events | READ_EVENT, true);
    StaysLiveSame(s, c);
  }

  lemma StopReadEffect(s: Sys, c: nat)
    requires Open(s, c)
    ensures var r := StopRead(s, c);
      StaysLive(s, r, c) && r.conns[c].history == s.conns[c].history && ViewOf(r, c).inPending == ViewOf(s, c).inPending
  {
    StaysLiveReading(s, c, s.conns[c].chan.events & !READ_EVENT, false);
    StaysLiveSame(s, c);
  }

  /** Running the write-complete or high-water callback of an open connection. */
  lemma CallbackEffect(s: Sys, c: nat, t: Task)
    requires Open(s, c) && t in {WriteComplete(c), HighWater(c)}
    ensures var r := RunTask(s, t);
      && StaysLive(s, r, c) && r.conns[c].history == s.conns[c].history + [Handled]
      && ViewOf(r, c).inPending == ViewOf(s, c).inPending
  {
    if t.WriteComplete? {
      StartReadEffect(s, c);
      StaysLiveLog(StartRead(s, c), c);
      StaysLiveTrans(s, StartRead(s, c), RunTask(s, t), c);
    } else {
      StopReadEffect(s, c);
      StaysLiveLog(StopRead(s, c), c);
      StaysLiveTrans(s, StopRead(s, c), RunTask(s, t), c);
    }
  }

  lemma StaysLivePush(s: Sys, c: nat, t: Task)
    requires Open(s, c) && t in {WriteComplete(c), HighWater(c)}
    ensures StaysLive(s, Push(s, s.conns[c].loop, t), c)
    ensures Push(s, s.conns[c].loop, t).conns == s.conns
  {
    var l := s.conns[c].loop;
    HarmlessPush(s, l, t);
    PushOwn(s, l, t);
    PushBase(s, l, t);
  }

  lemma SendEffect(s: Sys, c: nat, sent: Sent)
    requires Open(s, c) && !sent.Refused?
    ensures StaysLive(s, SendInLoop(s, c, sent), c)
    ensures SendInLoop(s, c, sent).conns[c].history == s.conns[c].history
  {
    var k := s.conns[c];
    if sent.Whole? && !IsWriting(k.chan.events) {
      StaysLivePush(s, c, WriteComplete(c));
    } else {
      var m := if sent.Spilled? && sent.high then Push(s, k.loop, HighWater(c)) else s;
      assert StaysLive(s, m, c) && m.conns == s.conns by {
        StaysLiveSame(s, c);
        StaysLivePush(s, c, HighWater(c));
      }
      if !IsWriting(k.chan.events) {
        var r := SetEvents(m, c, k.chan.events | WRITE_EVENT);
        assert SendInLoop(s, c, sent) == r;
        assert StaysLive(m, r, c) && r.conns[c].history == k.history by {
          StaysLiveSetEvents(m, c, k.chan.events | WRITE_EVENT);
        }
        StaysLiveTrans(s, m, r, c);
      }
    }
  }

  lemma {:induction false} SendsEffect(s: Sys, c: nat, sends: seq<Sent>)
    requires Open(s, c) && NoneRefused(sends)
    ensures StaysLive(s, Sends(s, c, sends), c)
    ensures Sends(s, c, sends).conns[c].history == s.conns[c].history
    decreases |sends|
  {
    if sends == [] {
      StaysLiveSame(s, c);
    } else {
      assert sends[0] in sends && forall sent <- sends[1..] :: sent in sends;
      SendEffect(s, c, sends[0]);
      var m := SendInLoop(s, c, sends[0]);
      SendsEffect(m, c, sends[1..]);
      StaysLiveTrans(s, m, Sends(m, c, sends[1..]), c);
    }
  }

  lemma ShutdownEffect(s: Sys, c: nat)
    requires Open(s, c)
    ensures StaysLive(s, Shutdown(s, c), c) && Shutdown(s, c).conns[c].history == s.conns[c].history
    ensures ViewOf(Shutdown(s, c), c).inPending == ViewOf(s, c).inPending
  {
    StaysLiveSame(s, c);
    HarmlessRewrite(s, c, s.conns[c].(state := Disconnecting));
  }

  lemma MessageEffect(s: Sys, c: nat, reply: Reply)
    requires Open(s, c) && (s.conns[c].state == Connected ==> NoneRefused(reply.sends))
    ensures var r := OnMessage(s, c, reply);
      StaysLive(s, r, c) && r.conns[c].history == s.conns[c].history + [Handled]
  {
    if s.conns[c].state == Connected {
      SendsEffect(s, c, reply.sends);
    }
    StaysLiveSame(s, c);
    var m := if s.conns[c].state == Connected then Sends(s, c, reply.sends) else s;
    StaysLiveSame(m, c);
    ShutdownEffect(m, c);
    var n := if reply.shutdown then Shutdown(m, c) else m;
    StaysLiveTrans(s, m, n, c);
    StaysLiveLog(n, c);
    StaysLiveTrans(s, n, Log(n, c, Handled), c);
  }

  lemma WriteEffect(s: Sys, c: nat, drained: bool)
    requires Open(s, c)
    ensures var r := HandleWrite(s, c, drained);
      && StaysLive(s, r, c)
      && r.conns[c].history == if IsWriting(s.conns[c].chan.events)
                               then s.conns[c].history + [Handled] else s.conns[c].history
  {
    StaysLiveSame(s, c);
    var k := s.conns[c];
    if IsWriting(k.chan.events) {
      if drained {
        StaysLiveSetEvents(s, c, k.chan.events & !WRITE_EVENT);
        var m := SetEvents(s, c, k.chan.events & !WRITE_EVENT);
        StaysLivePush(m, c, WriteComplete(c));
        var n := Push(m, k.loop, WriteComplete(c));
        StaysLiveTrans(s, m, n, c);
        StaysLiveLog(n, c);
        StaysLiveTrans(s, n, Log(n, c, Handled), c);
      } else {
        StaysLiveLog(s, c);
      }
    }
  }
}
